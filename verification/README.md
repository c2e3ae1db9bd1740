# Codex quota scheduler: verified core

A Dafny model of the plugin's control plane and proofs about it. The plugin keeps quota
information of several Codex accounts, refreshes credentials through a host, activates idle
quota windows, retries failing requests and picks accounts. The model covers the parts whose
correctness depends on long histories: crashes, restarts, stale results and interleavings.

| files | what they model |
|---|---|
| JobTable, CoordinatorSpec, CoordinatorProofs, CoordinatorTheorems, CoordinatorFencing, CoordinatorDrains, CoordinatorAccounts, CoordinatorOrder, CoordinatorReplies, DrainSteps, Coordinator | the coordinator's command loop: leases, queues, jobs in flight, cancellation tokens, drains |
| TypedReads, DeadReads | joining of typed reads behind start sequences |
| Identity, CredentialRecovery | fingerprints, transition chains, saves behind a write-ahead chain, recovery |
| Epochs, BindingRegistry | durable admission epochs and the tier generation that fence stale writebacks |
| ProbeClassify, ProbeState, ProbeOutcomes, ProbeWAL, ProbeProtocol | the window state machine and the durable probe attempt |
| Disk, Store, Fence | the two-file state store and the fence allocator |
| RetrySpec, RetryRun, Frames | the retry chain and its frame assembler |
| Basics | what several modules share |
| Selection, Trials, Picking | account selection, trials, and the pick that joins them |

Most components come in two layers. A state machine on values says what one step does, and the
theorems speak about every run of it. A class in the program's own form, with its loops and
fields, is proved to take exactly those steps. `View()` maps an object to the machine's state.

## How the source is read

- A job, a read entry or a nested stream is a reference in the program. Here it is an index into
  the sequence of all of its kind ever created, so reuse of a key never means the same job.
- Executors, timers, the host, the clock and the disk's failures are the environment. What they
  answer is part of a command, and they may answer in any order, repeatedly and late.
- Times and durations are integers in nanoseconds and zero is the unset time. Usage and quota
  percentages are reals, so there is no NaN.
- Hashes are injective: two composite fingerprints agree exactly when their three parts do, and
  different accounts have different, nonzero instance ids.
- Map iteration order is left open wherever the program ranges over a map.

## What was found to differ from the plain promise

- Recovery after a crashed save within a day fails in four ways. The day counts from the oldest
  transition still in the chain, not from the last save (`CredentialRecovery.OldestTransitionCounts`).
  SaveTail skips aborted transitions but classification stops at them, so after a rejected save
  the next own save looks like an external login (`CredentialRecovery.RejectedSaveHidesTheNext`).
  A late reconcile may itself abort a dangling save and leave it in the way
  (`CredentialRecovery.LateReconcileHidesTheNext`), and so may a reconcile that is rolled back
  (`CredentialRecovery.RollbackHidesTheNext`). There is no fifth: `CredentialRecovery.CrashedSaveRecovers`
  covers every run without these. The exact condition is `CredentialRecovery.RunRecoversIff`.
- Operator resolution (`Identity.OperatorRefusedIff`): an unresolved transition behind an aborted
  one blocks saves, yet the operator's request is refused; `CredentialRecovery.OperatorRefusedWhileBlocked`
  is a run that gets there.
- SaveTail under truncation (`Identity.AppendCanLoseUnresolved`): taken by itself the append could
  drop an unresolved transition. No run gets there, because a save is refused while one is
  unresolved (`CredentialRecovery.ReachableAppendLosesNothing`).
- Joining of reads (`DeadReads.DeadAnswerIff`): an entry whose submission was refused, whose queued
  job was dropped, or whose sequence allocation failed, is never marked done. Its future is completed
  at once, as cancelled or with an error, and later requests may be answered with that outcome. The
  continuations in the statement hold no further refusal of the same instance: a refusal leaves a
  dead entry by itself (`DeadReads.RefusalLeavesDead`), in every state.
- Joining of reads (`TypedReads.AskedAgainIff`): two equal requests that name a start point queue two
  reads, because a read that has not begun is shared only with requests that name none.
- The tier generation (`Epochs.SilentJoin`): an account that was blocked before it was ever admitted
  counts as a member already, so a roster that lists it without an auth index admits it without
  raising the generation. Otherwise an unchanged roster changes nothing (`Epochs.SameRosterChangesNothing`).
- A write that fails may be on disk (`Store.MemoryAgreesIff`): memory keeps the old state while a
  restart would load the new one, exactly when the new primary was in place but not synced, or
  there was no primary and the new backup was in place.
- Fence numbers (`Fence.SafeExactlyWhenAligned`): exactly from a ceiling one short of a block some
  run wraps the 64-bit counter and repeats a number; a fresh state never gets there
  (`Fence.FreshCeilings`).
- The account order (`Selection.LessIsTotalIff`): in priority mode it is not total between an
  unknown and a weekly family. The account selected is then the same for every order of the snapshot
  exactly when one account of its class comes before all others (`Selection.SelectionIgnoresOrderIff`).
- A chain whose deadline passes before its first attempt closes the client's stream without an error
  and without a byte (`RetrySpec.CleanWithoutBytes`): the reason is kept for the log only.
- A read that times out is not called back and may swallow a chunk after the attempt was committed
  (`RetrySpec.StallLosesChunk`); the stream is whole exactly when none did (`RetrySpec.WholeStreamIff`).
- Frame assembly overwrites frames (`Frames.OneChunkIsClassifiedWrongly`): the rest of the buffer is
  moved to the front before the frame in front of it is classified, and the frame is a slice of
  that buffer. What is classified is right exactly when the moved bytes agree with the frame
  (`Frames.ClassifiesFramesIff`); the verdict is right for every classifier exactly under the weaker
  condition of `Frames.VerdictsAgreeIff`. Chunks that end with their frames are safe
  (`Frames.FrameAlignedChunksAgree`).
- Frame assembly also takes a tail that is a whole JSON body at a chunk boundary for a frame and
  discards it (`Frames.WholeTailIsLost`). `VerdictsAgreeIff` covers these tails too.
- Plain updates (`Disk.LostPrimaryIff`): only a mirrored update, a first one, or one that changes
  nothing survives the loss of the primary.

## Model

| member | source | states |
|---|---|---|
| CoordinatorTheorems.InFlightPartition | coordinator.go:525-863 | After any command sequence the jobs in flight are the disjoint union of the queued jobs and the lease holders, an instance has at most one started job in flight, and a future is unfinished exactly while its job is in flight |
| CoordinatorTheorems.AppliesOnlyForHolder | coordinator.go:689-763 | Apply is called in a step only for the job whose result is delivered, and only if that very job is in flight, holds its instance's lease, is neither expired nor invalidated, and revalidates |
| CoordinatorTheorems.AppliedAtMostOnce | coordinator.go:651-763 | Over every command sequence Apply runs at most once per job |
| CoordinatorTheorems.NeverAppliesLater | coordinator.go:651-772 | A job that is not in flight at some point is never applied afterwards, whatever results or log callbacks still arrive and even if its operation key is used again |
| CoordinatorTheorems.CutOffByExpiry | coordinator.go:651-688 | After its lease expired a job is out of flight for good, so no later result applies |
| CoordinatorTheorems.CutOffByCancel | coordinator.go:783-813 | After its instance was cancelled a job is out of flight for good, so no later result applies |
| CoordinatorTheorems.NothingAppliesAfterDrain | coordinator.go:833-859 | Once a drain began no result is ever applied again |
| CoordinatorTheorems.DrainIsForever | coordinator.go:833-859 | Draining is never undone: the loop does not accept work again |
| CoordinatorOrder.IdleOnlyWhileWaiting | coordinator.go:581-604 | After every run, while jobs are accepted, an instance without a lease holder has nothing queued, or the oldest job queued for it is a legacy refresh naming a fence that no job of the instance ended with |
| CoordinatorOrder.StartedInOrder | coordinator.go:581-604 | After every run a started job was preceded by every earlier accepted job of its instance: each of those was started or has left flight, and while the later one is in flight all of them have left |
| CoordinatorOrder.StartedMeansFenceMet | coordinator.go:590-599 | A legacy refresh was never started before a job of its instance ended with the fence it names or a later one |
| CoordinatorOrder.AcceptedOnIdle | coordinator.go:626-650 | A job accepted on an idle instance is in flight as submitted and holds the lease at once, if and only if it is not a legacy refresh that must wait |
| CoordinatorOrder.ExecOrderly | coordinator.go:525-863 | Every command keeps queues in the order of acceptance, starts in that order, no lease free while the head of the queue may start, and fences met |
| CoordinatorReplies.ReplyExactly | coordinator.go:626-650 | After every run the answer to a submission, told from the jobs in flight: it joins exactly if one does the same and it is no probe send, which never joins; otherwise it is rejected exactly while draining, for a cancelled instance, an unknown source, or the legacy source with another class; else it becomes a new job |
| CoordinatorReplies.FutureTells | coordinator.go:605-859 | Whoever waits for a job is told in the step in which it leaves flight: applied exactly if its result was applied and applying did not fail; stale if its lease expired or its result was not applied; cancelled otherwise |
| CoordinatorReplies.GenerationsRise | coordinator.go:643-645 | The generation known of an instance is the highest of those accepted and activated: no other command changes it |
| CoordinatorProofs.ExecInv | coordinator.go:525-863 | Every command keeps the loop's invariant: where jobs are, what was applied, the marks of cancelled instances, and the balance of every waiting drain report |
| CoordinatorFencing.ReopenedExactly | coordinator.go:783-832 | A cancelled instance is reopened by exactly two commands: activation above the generation recorded at the cancellation, or a rollback with that cancellation's own token and generation |
| CoordinatorFencing.MarksGrow | coordinator.go:783-832 | While an instance stays cancelled its recorded generation and token do not go down, and every new cancellation gets a larger token |
| CoordinatorFencing.CancelledThroughoutIff | coordinator.go:783-832 | Over every run a cancelled instance is cancelled in every state if and only if no command of the run reopens it by the marks it bears at that point |
| CoordinatorFencing.CancelledUntilReopened | coordinator.go:626-650 | Over every run in which no command reopens it a cancelled instance stays cancelled, rejects every submission, and no job is ever allocated for it |
| CoordinatorFencing.StaleNeverReopens | coordinator.go:814-832 | Activations at or below the recorded generation and rollbacks with older tokens never reopen an instance, whatever further cancellations the run holds |
| CoordinatorFencing.AllRejected | coordinator.go:637-645 | A submission for a cancelled instance is never accepted |
| CoordinatorFencing.OwnRollbackReopens | coordinator.go:825-832 | A rollback that shows the recorded generation and token reopens the instance: its submissions are accepted again |
| CoordinatorAccounts.LedgerIsAccount | coordinator.go:605-859 | After every run since a drain began the loop's own ledger of that drain is exactly the set of its jobs that ended, were withdrawn by a cancellation, ended with a probe marked sent, and failed to be handed on |
| CoordinatorAccounts.ReportIsAccount | coordinator.go:605-763 | Whatever happens after a drain began, cancellations included, its report counts exactly those jobs: Completed, Cancelled, Invalidated, SentUnknown with PersistenceFailures, and HandoffBlocked exactly when one failed |
| CoordinatorAccounts.DrainReportExact | coordinator.go:605-859 | Without instance cancellations Completed and Cancelled are the jobs in flight when the drain began, Invalidated the leased ones; the leased jobs whose probe was marked sent at the end, among them all that were marked when the drain began, split exactly into SentUnknown and PersistenceFailures |
| CoordinatorDrains.InFlightCount | coordinator.go:833-859 | The operations in flight number the queued jobs and the lease holders together |
| JobTable.OneHolderPerInstance | coordinator.go:536-604 | Two started jobs in flight for one instance are the same job |
| JobTable.CancelInstanceFlights | coordinator.go:783-813 | Cancelling an instance takes exactly its own jobs out of flight |
| JobTable.FlushAllValid | coordinator.go:833-859 | A drain leaves exactly the lease holders in flight, all of them invalidated |
| DrainSteps.FlushAllSteps | coordinator.go:836-853 | Working off the queues one job at a time and then marking the rest, in any order, has the drain's effect on the table |
| DrainSteps.DroppedCounts | coordinator.go:836-853 | The drain's loops count each queued job and each lease holder once |
| Coordinator.Loop.constructor | coordinator.go:525-535 | The empty loop state satisfies the invariant |
| Coordinator.Loop.TryStart | coordinator.go:581-604 | Takes the step of the state machine: the head of the queue gets the free lease, a legacy refresh waits for the fence it names |
| Coordinator.Loop.Submit | coordinator.go:626-650 | Takes the submit step and answers joined, rejected or accepted as the state machine does; keeps the invariant |
| Coordinator.Loop.Expire | coordinator.go:651-688 | Takes the expiry step and keeps the invariant; a stale timer changes nothing |
| Coordinator.Loop.Deliver | coordinator.go:689-772 | Takes the result step and keeps the invariant; when host logs must be dispatched first nothing changes and the job stays in flight |
| Coordinator.Loop.Settle | coordinator.go:651-763 | The common end of a job: retire it, enter it in every waiting report, start the next, hand back finished reports |
| Coordinator.Loop.TallyDrains | coordinator.go:676-686 | The loop over waiting drains enters the job's end in each report |
| Coordinator.Loop.FinishDrains | coordinator.go:605-613 | Hands back every waiting report once nothing is in flight |
| Coordinator.Loop.MarkProbeSent | coordinator.go:144-151 | Records that a probe was sent; keeps the invariant |
| Coordinator.Loop.Cancel | coordinator.go:783-813 | Cancels instance after instance, each under its own new token, which it returns; keeps the invariant |
| Coordinator.Loop.FlushQueue | coordinator.go:783-813 | The loop over one instance's queue cancels each queued job and drops the queue |
| Coordinator.Loop.Activate | coordinator.go:814-824 | Raises generations and clears exactly the marks the new generation exceeds, for a map worked off in any order |
| Coordinator.Loop.Restore | coordinator.go:825-832 | Clears exactly the marks whose generation and token both match |
| Coordinator.Loop.Drain | coordinator.go:833-859 | Takes the drain step: stops accepting, cancels queued jobs, invalidates leased ones, and reports at once or waits |
| TypedReads.ServedByLaterRead | coordinator.go:305-344 | In every run a request that names an issued fence is answered only by a read whose start sequence is larger, and a verify request only by a read of its own attempt |
| TypedReads.AnswerExactly | coordinator.go:305-344 | A request is answered by the first read of its instance's list that has not returned and began after the point named, or waits in its class for a request that names none, and is not of another attempt if it is a verify; it opens a new read exactly when there is none |
| TypedReads.AskedAgainIff | coordinator.go:315-344 | Asked again at once a request gets the same read if and only if it named no point or some running read suited it |
| DeadReads.DeadAnswerIff | coordinator.go:305-344 | In every reachable state: some continuation without further refusals, dropped or failed beginnings, or clearing of the instance answers a plain request of a class with a dead entry if and only if the instance's list already holds a dead entry of that class |
| DeadReads.DeadStays | coordinator.go:547-573 | A dead entry stays in its list, and dead, over every run that does not clear its instance |
| DeadReads.NoReadIsOpened | coordinator.go:305-344 | From then on no plain request of the class opens a read, whatever else happens |
| DeadReads.SmoothAnswersAlive | coordinator.go:547-573 | If no submission of the instance is refused, no queued read of it dropped and no sequence allocation for it fails, every answer is a read some executor may still finish, whatever befell other instances |
| DeadReads.ExecHomes | coordinator.go:305-420 | Every run keeps each entry in the list of one instance only and a dead entry without a start sequence |
| DeadReads.RefusalLeavesDead | coordinator.go:332-337 | The smallest run that leaves a dead entry, a single refused request; the next acceptable request gets it |
| DeadReads.DropLeavesDead | coordinator.go:836-847 | A queued read dropped by a drain leaves a dead entry as well, and the next plain request gets it |
| DeadReads.FailedBeginLeavesDead | coordinator.go:547-573 | So does a beginning for which no start sequence could be allocated |
| TypedReads.ReadTable.constructor | coordinator.go:300-300 | The empty table satisfies the invariant |
| TypedReads.ReadTable.Compact | coordinator.go:308-314 | The loop keeps exactly the unfinished entries, in order |
| TypedReads.ReadTable.Find | coordinator.go:315-331 | The loop finds the first entry that can serve the request |
| TypedReads.ReadTable.SubmitTyped | coordinator.go:305-344 | Answers with that entry or opens a new one; keeps the invariant |
| TypedReads.ReadTable.ClearTypedReads | coordinator.go:411-420 | Marks the entries of the given instances done and forgets their lists |
| DeadReads.ClearedExactly | coordinator.go:411-420 | After every run clearing ends exactly the reads of the instances named, dead ones with them, so that the next request for one of these opens a read; the others are untouched |
| Identity.ComputeTail | identity.go:106-117 | The loop computes the recursive tail of the chain |
| Identity.ComputeSaveTail | identity.go:118-132 | The loop computes the tail a save starts from, or reports an unresolved transition |
| Identity.ComputeAppendAt | identity.go:137-151 | Expiry, append and truncation as one function of the chain |
| Identity.AppendDropsExactly | identity.go:137-151 | What an append gives up: the expired transitions at the front, and of the rest the oldest while there are more than eleven with the new one; the cursor moves to where the kept ones begin |
| Identity.AppendKeepsMeaning | identity.go:137-151 | Appending to a linked chain keeps it linked and within 11 transitions, and its tail is that of the uncompacted append |
| Identity.AppendKeepsSaveTail | identity.go:118-151 | SaveTail agrees with the uncompacted append exactly when no dropped transition is unresolved or a kept one is unresolved too |
| Identity.AppendCanLoseUnresolved | identity.go:146-149 | Of the function alone: a full chain that begins with a planned transition loses it to the next append |
| CredentialRecovery.ReachableAppendLosesNothing | credential_wal.go:126-165 | In every reachable chain a save is planned only while nothing is unresolved, so the append loses nothing: both tails are those of the uncompacted append, and, whatever phase the new transition ends in, the next save starts at its target if it was applied, where it started if it was aborted, and nowhere while it is open |
| Identity.SaveTailOfLinked | identity.go:118-132 | On a linked chain SaveTail fails exactly when some transition is unresolved and is the tail otherwise |
| Identity.ComputeClassify | identity.go:171-208 | The loop classifies as the recursive walk does |
| Identity.ClassifyExactly | identity.go:171-208 | For every chain and whatever the host reports: same exactly at the cursor; an own rotation exactly at the target of a transition that is reached with nothing in doubt, told which; ambiguous exactly where one in doubt comes first; otherwise metadata if and only if subject and refresh token are the cursor's, and else an external login |
| Identity.ChainUnresolved | refresh.go:181-197 | The loop decides whether an operator may resolve the chain |
| Identity.OperatorSeesBlockage | refresh.go:181-197 | The operator is admitted exactly when some transition is unresolved and no aborted one stands before it |
| Identity.OperatorRefusedIff | refresh.go:181-197 | Saves are blocked and the operator is refused all the same if and only if the first unresolved transition stands behind an aborted one |
| CredentialRecovery.OperatorRefusedWhileBlocked | refresh.go:181-197 | A reachable such chain: a rejected save followed by one cut short |
| CredentialRecovery.ReconcileRecoversIff | credential_wal.go:316-351 | In step with the host a reconcile never gives up on an ambiguous chain (the report's flag; the observation may still be of the ambiguous kind); it yields same or owned rotation exactly when the chain reaches the host's fingerprint by transitions of at most a day that were not aborted; then the chain is empty at that fingerprint and a further reconcile changes nothing |
| CredentialRecovery.ReconciledExactly | credential_wal.go:316-351 | A reconcile that can decide ends as its report says: an external login starts over at the host's credential with no transitions; an own rotation moves the cursor there and keeps what follows; anything else leaves the cursor; aborted transitions at the front go, and no others |
| CredentialRecovery.StuckChangesNothing | credential_wal.go:316-335 | It reports ambiguity exactly when the last transition is open and the host holds neither end of it, and then changes nothing |
| CredentialRecovery.SettledExactly | credential_wal.go:316-335 | Settling decides only the last transition, by which end the host holds |
| CredentialRecovery.StripExactly | credential_wal.go:347-349 | Exactly the aborted transitions in front of the first that is not are removed |
| CredentialRecovery.RunRecoversIff | credential_wal.go:126-351 | The same after every run from a fresh chain, rejected and cut-short saves and late reconciles included |
| CredentialRecovery.CrashedSaveRecovers | credential_wal.go:126-205 | After any run of non-rejected saves, of reconciles that come while no transition is older than a day or with no dangling save the host did not take, and of rolled-back reconciles with no such save, and a last save cut short anywhere, host written or not, a reconcile while no transition is older than a day recovers |
| CredentialRecovery.LateReconcileHidesTheNext | credential_wal.go:316-351 | A reconcile more than a day after a save may abort a dangling save and keep it in the chain; the next save, neither rejected nor old, is then classified as an external login |
| CredentialRecovery.RollbackHidesTheNext | credential_wal.go:246-305 | A rolled-back reconcile leaves a dangling save aborted in the chain; the next save is then classified as an external login, with no rejected save, no old transition and no late reconcile |
| CredentialRecovery.RejectedSaveHidesTheNext | credential_wal.go:316-351 | A rejected save followed by a successful one is classified as an external login |
| CredentialRecovery.OldestTransitionCounts | identity.go:181-186 | The day counts from the oldest kept transition: one nanosecond after a save recovery can fail |
| CredentialRecovery.ExecInv | credential_wal.go:126-351 | Every save, however it ends, every reconcile, and every reconcile rolled back keep the chain linked, its fingerprints distinct, at most its last transition unresolved, and the host in step |
| CredentialRecovery.StripEmpties | credential_wal.go:347-349 | A decided chain whose tail is its own cursor holds only aborted transitions, all of which are removed |
| CredentialRecovery.CredentialManager.constructor | credential_wal.go:50-65 | A new chain at the host's fingerprint satisfies the invariant |
| CredentialRecovery.CredentialManager.SetTerminal | credential_wal.go:191-200 | The loop sets the phase of the transition with the save's sequence number |
| CredentialRecovery.CredentialManager.SaveVersioned | credential_wal.go:126-205 | Takes the save step up to the point the outcome says, for any fingerprint; refuses exactly when a transition is unresolved; keeps the invariant when the fingerprint is new |
| CredentialRecovery.CredentialManager.Reconcile | credential_wal.go:218-351 | Takes the reconcile step and reports as specified, on any chain; a failing hook undoes everything but the settling of the last transition; keeps the invariant |
| CredentialRecovery.CredentialManager.SettleLast | credential_wal.go:316-335 | Settles the last transition by the host in place, or reports it stuck |
| Epochs.AcceptedMeansUndisturbed | identity.go:81-83 | A writeback captured under an admitted binding and accepted after any run: no step of the run changed roster membership or an auth index, committed an external login, or reported a newer login of the account |
| Epochs.AcceptedIff | identity.go:81-83 | A writeback captured under an admitted binding is accepted after a run if and only if no step changed the roster, committed an external login, brought a newer generation from the host or a newer login of that account, and the account's own rotations left the fingerprint captured |
| Epochs.NewTierExactly | binding_registry.go:180-195 | The generation after a roster is the least that is positive, not below the old one, not below the incoming one, and above the old one if the roster differs |
| Epochs.SameRosterChangesNothing | binding_registry.go:170-241 | An unchanged roster with nothing newer coming in leaves the state as it was, if and only if every known account is admitted |
| Epochs.SilentJoin | binding_registry.go:170-195 | An account known only by its blocked flag joins a roster that lists it without an auth index, and the generation does not rise |
| Epochs.UnreadableChangesNothing | binding_registry.go:116-241 | A roster that confirms nothing, or for which the host could not be read, changes nothing |
| Epochs.BlockedIff | binding_registry.go:68-101 | An admitted account is blocked after a step exactly if the step blocks it, or it was blocked and did not log in; logins alone raise its login count, and each refresh of its own raises its token count by one |
| Epochs.BlockedUntilLogin | binding_registry.go:68-101 | Over every run a blocked account stays blocked until it logs in or leaves the roster |
| Epochs.OthersUntouched | binding_registry.go:68-101 | A step that names one account changes of another at most the generation |
| Epochs.ReadmissionRaisesBoth | binding_registry.go:180-241 | An account that drops out and comes back has a larger tier generation and a larger admission epoch |
| Epochs.ExecNotBefore | credential_wal.go:254-290 | Over every run the tier generation and each admission epoch never decrease |
| Epochs.CutsRaiseTier | binding_registry.go:180-195 | A change of membership or of an auth index, and an external login, strictly raise the tier generation |
| Epochs.RosterChangedMeans | binding_registry.go:170-179 | Counting ids and comparing indexes decides exactly whether membership or an auth index differs |
| Epochs.ExecInv | binding_registry.go:116-278 | Every step keeps each admitted binding at the current tier generation and at its instance's durable admission epoch |
| BindingRegistry.Registry.constructor | binding_registry.go:42-48 | The empty registry satisfies the invariant |
| BindingRegistry.Registry.ConfirmedIds | binding_registry.go:121-137 | The loop collects each confirmed id once |
| BindingRegistry.Registry.IndexById | binding_registry.go:144-152 | The last roster line with an id decides its auth index |
| BindingRegistry.LastLineDecides | binding_registry.go:144-152 | An id's auth index is that of the last line that bears it, whatever the lines before say |
| BindingRegistry.ConfirmedExactly | binding_registry.go:121-137 | An account is confirmed exactly by some line that names it with a codex provider and a priority |
| BindingRegistry.Registry.HealedEpochs | binding_registry.go:162-169 | In a state the registry produced, healing epochs from old bindings changes nothing |
| BindingRegistry.Registry.HasChanged | binding_registry.go:170-179 | The loop decides whether the roster changed |
| BindingRegistry.Registry.BuildNext | binding_registry.go:196-241 | The loop builds the next bindings, epochs and chains, or stops when the host cannot be read |
| BindingRegistry.Registry.MergeEpochs | binding_registry.go:248-257 | Merging only raises epochs and so yields the new ones |
| BindingRegistry.Registry.ReconcileRosterTiers | binding_registry.go:112-278 | Takes the roster step or changes nothing, exactly when the source says so; returns exactly the bindings of instances the roster no longer names; keeps the invariant |
| BindingRegistry.KeptOrRemoved | binding_registry.go:242-247 | Every binding of an instance is kept under its id with the same instance or removed unchanged, never both and never lost |
| BindingRegistry.Registry.Dropped | binding_registry.go:242-247 | The loop collects the removed bindings |
| BindingRegistry.Registry.Commit | binding_registry.go:248-278 | Tier generation, epochs, bindings and chains change together or not at all |
| BindingRegistry.Registry.MarkAuthBlocked | binding_registry.go:68-80 | Takes its step, also for an unknown account; keeps the invariant |
| BindingRegistry.Registry.ObserveExternalLogin | binding_registry.go:82-101 | Takes its step only for a newer login; keeps the invariant |
| BindingRegistry.Registry.ApplyIfCurrent | binding_registry.go:57-66 | Accepts exactly the current version |
| BindingRegistry.Registry.CommitExternalLogin | credential_wal.go:268-289 | Raises login, admission and tier generation together and moves every binding to the new generation; keeps the invariant |
| BindingRegistry.Registry.CommitOwnedRotation | refresh.go:132-135 | Raises the token epoch and adopts the fingerprint; keeps the invariant |
| ProbeClassify.ActivationEvidence | probe_classify.go:65-183 | Activation is never concluded from an implausible reset, and as new exactly on a forward move beyond the skew |
| ProbeClassify.LengthNeedsTwoIntervals | probe_classify.go:141-157 | A window length is learned only from two consecutive intervals that agree within the skew |
| ProbeOutcomes.VerifyOutcome | probe_state.go:220-246 | Every outcome of a verification in terms of baseline and snapshot: confirmed exactly on a forward reset, on use of a suspected window, or on usage back at zero without a reset; held exactly on an implausible reset; waiting exactly when it is too early or the window was replaced; otherwise retried after one, five or fifteen minutes |
| ProbeOutcomes.PrecheckOutcome | probe_state.go:170-219 | Every outcome of a precheck that does not send: unreadable is retried, implausible held, activated confirmed unless the reset only moved, everything else waits read-only |
| ProbeOutcomes.EventOutcome | probe_state.go:146-169 | What deadlines, auth failures, logins and roster confirmations do to a window, by its state |
| ProbeOutcomes.OthersPass | probe_state.go:146-180 | A precheck or verification in a state it is not for, or without a snapshot of the window, changes nothing |
| ProbeOutcomes.WaitsForDue | probe_state.go:84-169 | The controller waits for exactly the times at which a deadline event asks for a check, unless the deadline was never set |
| ProbeOutcomes.BlockedUntilLogin | probe_state.go:146-169 | A blocked window neither changes nor sends over any sequence of events without a login |
| ProbeOutcomes.AtMostOneSend | probe_state.go:146-247 | Between two of deadline, login and roster confirmation a window sends at most once, and only if it was up for a check |
| ProbeOutcomes.KindMeans | probe_classify.go:65-183 | Each classification told from baseline, snapshot and time |
| ProbeOutcomes.BaselineMeans | probe_classify.go:65-183 | What becomes of the baseline under each |
| ProbeOutcomes.LengthLearnedExactly | probe_classify.go:141-157 | A forward reset makes the interval the length exactly if it agrees with the last one; if it does not it starts over; a known length is never revised |
| ProbeOutcomes.ThreeResetsSuffice | probe_classify.go:141-157 | Three resets at equal distances suffice to learn a length |
| ProbeState.SendsExactlyOnStrictEvidence | probe_state.go:170-247 | A window moves to awaiting verification and emits a send exactly when it was pending, had a reset baseline, and the precheck shows strict lazy evidence |
| ProbeState.AuthorizedMeans | probe_state.go:180-197 | The authorisation the code computes step by step is the strict evidence written out |
| ProbeState.OtherwiseReadOnly | probe_state.go:210-219 | Every other lazy or ambiguous precheck goes back to read-only waiting with a later deadline |
| ProbeState.ResultsRest | probe_state.go:163-246 | After a precheck or verify event an accepting window is confirmed, awaiting verification, or waiting with a deadline strictly after now |
| ProbeState.NotDueIsLater | probe_state.go:288-304 | A classification of not due yet comes with a deadline after now |
| ProbeState.DeadlineOnce | probe_state.go:163-169 | A deadline emits one precheck intent and the window is not due again before a result |
| ProbeState.ProbeController.Advance | probe_state.go:146-272 | Each window moves by itself; intents are exactly those of the windows concerned, one each, and every send gets a new attempt number |
| ProbeState.ProbeController.NextDeadline | probe_state.go:84-99 | The earliest nonzero deadline of a waiting window, or none |
| ProbeState.ProbeController.SetWindow | probe_state.go:111-137 | A lookup afterwards finds the window set and every other lookup what it found before; no instance is kept without a window |
| ProbeState.ProbeController.RemoveWindow | probe_state.go:132-145 | A lookup afterwards finds nothing there and every other lookup what it found before; no instance is kept without a window |
| ProbeState.ProbeController.RemoveInstance | probe_state.go:153-156 | Lookups of the instance find nothing afterwards and those of others what they found before |
| ProbeWAL.WAL.FindExact | probe_wal.go:20-31 | The loop finds the exact attempt in one of the given phases |
| ProbeWAL.WAL.Claim | probe_runtime.go:737-751 | Takes up the attempt on record or prepares one under a new id |
| ProbeWAL.WAL.PersistSending | probe_wal.go:59-80 | Moves exactly a prepared attempt to sending |
| ProbeWAL.WAL.PersistSent | probe_wal.go:91-107 | Moves exactly a sending attempt to sent |
| ProbeWAL.WAL.PersistSentUnknown | probe_wal.go:33-44 | Moves exactly an attempt past prepared to sent-unknown and never shortens its suppression |
| ProbeWAL.WAL.Complete | probe_wal.go:114-123 | Removes exactly the named attempt in one of the given phases |
| ProbeWAL.WAL.PersistFailure | probe_runtime.go:408-435 | After a send the outcome becomes unknown; before it a prepared attempt is given up and a sending one stays |
| ProbeWAL.WAL.HoldForRoster | probe_runtime.go:503-520 | The hold drops prepared attempts and keeps everything that may have been sent |
| ProbeWAL.WAL.RecoverChecked | probe_wal.go:157-185 | The loop turns sending into sent-unknown and emits one verify intent, starting after the send fence, for exactly the records that are due |
| ProbeWAL.RecoveryDeadline | probe_wal.go:136-155 | Recovery finds something at a time exactly when that time is not before the deadline returned |
| ProbeProtocol.AtMostOnePost | probe_runtime.go:1082-1205 | In every interleaving of claims, sends, holds, expiries, recoveries, crashes and restarts each attempt id starts at most one activation request, only after its record was durably sending |
| ProbeProtocol.ArmedByDurableSending | probe_wal.go:59-80 | An id is armed only by the transaction that writes sending, and only an armed run sends |
| ProbeProtocol.RecordsMoveForward | probe_wal.go:20-113 | A record past prepared keeps its id and send fence, its phase only moves forward, its suppression is never shortened, and it goes only with its instance or on a read begun after its send fence |
| ProbeProtocol.SentRecordsSurvive | probe_runtime.go:933-978 | The same over any continuation, crashes included |
| ProbeProtocol.ClaimStarts | probe_runtime.go:737-751 | On an instance without a record the due pass puts a new attempt under a new id on record as prepared and starts a run that holds it |
| ProbeProtocol.ClaimTakesUp | probe_runtime.go:737-751 | An attempt on record is taken up again exactly while it is only prepared |
| ProbeProtocol.ArmWrites | probe_wal.go:59-80 | Arming makes the record say sending under the run's own fence, suppressed for ten minutes if for nothing else; without its prepared record the run ends |
| ProbeProtocol.SendCompletes | probe_runtime.go:1082-1205 | An armed run that is not disturbed sends one request and, after a read begun past the send fence, its record is gone |
| ProbeProtocol.CrashRecovers | probe_runtime.go:795-898 | After a crash anywhere past the arming a due record is recovered without a second request and ended by a read |
| ProbeProtocol.FailuresLeave | probe_runtime.go:408-435 | A failure after the request leaves the outcome unknown, suppressed as long as asked; one before it takes away a prepared record and no other |
| ProbeProtocol.HoldTakesPrepared | probe_runtime.go:503-520 | A roster hold takes exactly the prepared records it names |
| ProbeProtocol.ExecInv | probe_runtime.go:408-547 | Every command keeps records, overlapping executions and sent requests consistent |
| Disk.CrashLeavesOldOrNew | state_store.go:292-390 | A crash after any disk operation of a write leaves a disk that loads as the previous state or the new one |
| Disk.MirrorSurvivesOneLoss | state_store.go:267-283 | After a completed mirrored write, losing or corrupting either file never yields another state, and the load fails exactly when evidence of an earlier corruption is in the way |
| Disk.LostPrimaryIff | state_store.go:130-344 | With the primary missing or corrupt after a write, a load fails exactly when it is corrupt and evidence of an earlier corruption is in the way; otherwise it returns what was written if and only if the write was mirrored, had no earlier primary, or wrote what was there already, and else the previous state |
| Disk.PlainWriteFallsBack | state_store.go:250-266 | The smallest case in which the previous state is back |
| Disk.RepairKeepsState | state_store.go:139-150 | Repairing a corrupt primary may be cut short anywhere without changing what is loaded |
| Disk.LoadSettles | state_store.go:130-205 | A successful load leaves a disk that loads the same state again |
| Store.LoadExactly | state_store.go:130-205 | When a load fails, and the state, schema, source and warning it returns, told from the two files and the evidence |
| Store.LoadLosesNothing | state_store.go:130-224 | A load that succeeds loses no content: what either file held is still in a file or set aside, and earlier evidence is untouched |
| Store.MemoryAgreesIff | state_store.go:292-344 | Memory after a step, exactly; and a failed write leaves memory and disk apart if and only if it changes something and the new primary was in place unsynced, or there was no primary and the new backup was in place |
| Store.NewerIsNeverTouched | state_store.go:292-296 | A state of a newer schema is altered by no history |
| Store.LoadsOnlyWhatWasWritten | state_store.go:240-390 | Over any history of writes, failures and restarts, among them writes that reach the primary and still report an error, a load returns the last write whose primary was put in place or one attempted since |
| Store.WarningStays | state_store.go:296-298 | Once a load has reported the fence warning every later write, cut short or not, and every restart keep it |
| Store.EmptyRecoveryWarns | state_store.go:154-173 | A load that lost both files raises the warning in memory and in both files |
| Store.StateStore.WriteAtomic | state_store.go:345-390 | Temporary file, sync, rename, directory sync; the target changes with the rename and success is reported only after the directory sync |
| Store.StateStore.WriteLocked | state_store.go:292-344 | Backup, then primary, then memory; any failure, also one after the primary is in place, leaves memory alone |
| Store.StateStore.LoadLocked | state_store.go:130-205 | Loads, repairs or starts empty as specified |
| Store.StateStore.RecoverEmpty | state_store.go:154-173 | Moves corrupt files aside and writes the warned empty state |
| Store.StateStore.MoveAside | state_store.go:207-224 | Moves a corrupt file aside unless evidence is already there |
| Fence.IssuedStrictlyIncrease | fence.go:25-85 | Through failed, unseen and other writes and any restarts issued numbers strictly increase, are positive and never exceed the durable ceiling, from any ceiling not one short of a block |
| Fence.FreshCeilings | fence.go:37-66 | From a fresh start every ceiling is a multiple of the block size |
| Fence.NextExactly | fence.go:25-85 | When a request hands out a number, which one, and when it writes a ceiling: the number in turn, from the open block or after a confirmed write of a new ceiling |
| Fence.IssuedConsecutively | fence.go:25-85 | Between restarts no number is left out, across blocks, failed and other writes |
| Fence.SafeExactlyWhenAligned | fence.go:25-85 | From any ceiling: issued numbers strictly increase in every run if and only if the ceiling is not one short of a block |
| Fence.LargestCeilingWraps | fence.go:82-84 | At the largest ceiling zero is issued, and again after a restart |
| Fence.UnalignedRepeats | fence.go:49-66 | From every ceiling one short of a block some run of lost reservations and restarts leads there and repeats a number |
| Fence.UnsafeIssuesNothing | fence.go:28-31 | An untrustworthy ceiling issues nothing |
| Fence.FenceAllocator.Next | fence.go:25-85 | Takes the allocation step and keeps the invariant; a number is issued exactly when one is returned |
| Fence.FenceAllocator.ReserveBlock | fence.go:49-66 | Raises the durable ceiling by one block, or not |
| RetrySpec.TargetCount | retry_chain.go:35-41 | At least one attempt, never more than the budget or the targets |
| RetrySpec.Remaining | retry_chain.go:56-69 | The targets still to be tried, in order |
| RetrySpec.StartedExactly | retry_runtime.go:200-266 | The number of attempts, without running the chain: none begun late, all but the last failed and retryable, and the last where the chain must stop |
| RetrySpec.EachFate | retry_runtime.go:400-484 | For the first turn of an attempt that decides, how the attempt ends, kind by kind: retryable or not, committed or not, how much is held and whether a failure frame is among it |
| RetrySpec.RetriesIff | retry_runtime.go:385-485 | An attempt lets the chain go on exactly if its first deciding turn is a retryable failure, or opening it failed in a retryable way |
| RetrySpec.StopExactly | retry_runtime.go:554-577 | A committed attempt reads on to the first error, through the first chunk that ends the stream, or as far as the upstream goes |
| RetrySpec.CleanExactly | retry_runtime.go:274-292 | What the client has and whether the close is clean, told from the first deciding turn |
| RetrySpec.WholeFramesCounted | retry_runtime.go:854-866 | The frame budget counts the frames of the response when no chunk ends within one |
| RetrySpec.CleanMeans | retry_runtime.go:227-292 | A clean close after an attempt means the client has all it read, up to the end of its stream or up to the chunk that completed a failure frame |
| RetrySpec.CleanWithoutBytes | retry_runtime.go:205-292 | The stream is closed cleanly with nothing delivered exactly when no attempt was started, that is, the deadline passed before the first, or the stream ended without a byte |
| RetrySpec.FrameFailureIsStreams | retry_runtime.go:440-458 | When the chunks held end with their frames and no tail is a whole body, the failure an attempt is retried or ended for is the first decisive frame of the stream itself |
| RetrySpec.AssembledIsFold | retry_runtime.go:812-842 | The assembler's verdict over the chunks held is the fold the frame results speak of |
| RetrySpec.WholeStreamIff | retry_runtime.go:747-770 | A client of a completed attempt has all its upstream sent if and only if no timed-out read swallowed a chunk on the way |
| RetrySpec.StallLosesChunk | retry_runtime.go:407-420 | A stall after a first chunk loses the second of three while the run counts as a success |
| RetryRun.Session.Run | retry_runtime.go:176-268 | As a function of plan, upstream and client: how many attempts start, that exactly what the last one shows reaches the client as far as it accepts, which nested streams were opened and that each is closed once, that the plugin stream is closed exactly once, and exactly when that close is clean and when the run succeeds |
| RetryRun.Session.Attempt | retry_runtime.go:385-485 | Commits or fails exactly as the script decides; a failed attempt has shown nothing and hands over what it held |
| RetryRun.Session.ForwardCommitted | retry_runtime.go:540-578 | Flushes the hold buffer and passes the rest through as far as the client accepts; every exit closes the nested stream, so it is closed once |
| RetryRun.Session.PassThrough | retry_runtime.go:554-577 | Passes on all reads up to the end or the first error, and fails exactly if there is no end or the client stops accepting |
| RetryRun.Session.FinishFailed | retry_runtime.go:274-292 | Replays the frames of the failed attempt; the close carries no error exactly when all of them went out and the failure is among them or there is no reason to give |
| RetryRun.Decide | retry_runtime.go:400-484 | The read loop, with the frame assembler on its buffer and the counters of the hold buffer, ends as the specification says, holding what it had read |
| RetryRun.Taking | retry_runtime.go:402-483 | One turn of that loop |
| RetryRun.Absorbing | retry_runtime.go:447-477 | A chunk is held, absorbed and weighed against the limits in that order |
| Frames.VerdictsAgreeIff | retry_runtime.go:805-842 | For any chunks: every classifier gets the verdict of the stream split at once if and only if what is classified and the stream's frames have the same first occurrences |
| Frames.ClassifiesFramesIff | retry_runtime.go:817-828 | Without whole tails exactly the stream's frames are classified, in order, if and only if every cut leaves its frame intact, that is, the bytes moved to the front agree with it |
| Frames.OverwrittenIff | retry_runtime.go:823-826 | A frame is classified as it was if and only if the rest of the buffer, moved over it first, agrees with it byte by byte |
| Frames.FrameAlignedChunksAgree | retry_runtime.go:805-842 | When every chunk that completes a frame ends with it, and no tail is a whole body, the verdict is that of the stream split at once |
| Frames.OneChunkIsClassifiedWrongly | retry_runtime.go:823-826 | Two frames in one chunk: the second is classified in the place of the first, and another chunking of the same bytes gives another verdict |
| Frames.WrongFrameRightVerdict | retry_runtime.go:823-826 | A frame may be overwritten and yet no classifier tells the difference |
| Frames.WholeTailIsLost | retry_runtime.go:829-839 | A tail taken for a whole body at a chunk's end is thrown away and the frame it began is never classified |
| Frames.FrameAssembler.Absorb | retry_runtime.go:812-842 | One call absorbs a chunk as specified, overwritten frames included |
| Frames.FrameAssembler.Cut | retry_runtime.go:823-826 | Moves the rest to the front of the same buffer and only then reads the frame |
| Frames.FrameAssembler.Append | retry_runtime.go:812-816 | Appends the chunk to the buffer |
| Frames.FoldIsFirst | retry_runtime.go:812-842 | Folding over chunks stops at the first decisive one among the frames classified |
| Selection.LessIsStrictOrder | selection.go:137-166 | The order is irreflexive, asymmetric and transitive in both modes |
| Selection.LessIsTotalIff | selection.go:148-150 | Two accounts with different ids are comparable except exactly when, in priority mode with equal priorities, their families differ and neither is monthly |
| Selection.OrderedUnique | selection.go:120-122 | Accounts have at most one ordered arrangement |
| Selection.SelectionIgnoresOrderIff | selection.go:97-135 | Over all rearrangements of a snapshot the account selected is the same if and only if one account of the best class comes before all others of it |
| Selection.SelectedExactly | selection.go:97-135 | Someone is selected exactly when an account is offered as a codex candidate, active, not skipped and not barred; the one selected is such an account, and has quota by a current cache exactly if any such account has |
| Selection.SelectedLeadsTier | selection.go:137-150 | No account of its class has a higher CPA priority than the one selected, nor with an equal one a higher plugin priority, nor, in priority mode, is monthly where the one selected is not |
| Selection.SelectedIsAhead | selection.go:137-166 | An account ahead of all others of its class by the criteria written out is the one selected |
| Selection.OfferedExactly | selection.go:74-91 | Who is offered as a sure thing, as a chance, and never |
| Selection.ChoiceIgnoresOrder | selection.go:97-135 | Choice, the account before all others of the best class, is the same on every rearrangement, and so is whether all are comparable |
| Selection.UnrankedPairKeepsOrder | selection.go:148-150 | Of two accounts the order leaves unranked the one listed first is selected, so the pick then depends on the snapshot's order |
| Selection.LeastComesFirst | selection.go:120-122 | An account before all others heads the sorted list, whether or not the others are comparable |
| Selection.PoolCounts | selection.go:106-122 | A class list holds each account of the class as often as the snapshot, and no other |
| Selection.Sort | selection.go:120-122 | A rearrangement, ordered whenever all accounts are comparable; unranked accounts keep their order |
| Selection.Select | selection.go:97-135 | Nothing exactly when no class offers anyone; otherwise the head of the sorted best class, which is the account Choice names whenever there is one |
| Picking.Pick | scheduler_snapshot.go:71-80 | With others using the registry at any point between: an opportunistic account is returned only with its trial begun now in the registry; an instance is skipped only if someone else touched it meanwhile, and with nobody else about none is; the result is the choice among what was seen and not skipped; cells nobody touched are at most advanced |
| Picking.PickUntracked | scheduler_snapshot.go:71-80 | Without a registry an opportunistic account is never picked: an account with quota for sure is, with nobody skipped, exactly if there is one |
| Picking.LookAll | selection.go:106-117 | Advances and then reads the trial of every account that may be chosen, with others acting before and between; what was seen of an untouched instance is still so at the end |
| Picking.Begin | scheduler_snapshot.go:74-74 | A trial that was seen free begins unless someone touched it meanwhile |
| Trials.TrialsSpaced | trial.go:45-98 | While no evidence arrives successive trials begin at least 1, 2, 5, 10 and then always 15 minutes apart |
| Trials.PauseExactly | trial.go:79-98 | A trial runs out exactly five minutes after it began, or one with no evidence pending, and the next may begin exactly one, two, five, ten or fifteen minutes later |
| Trials.TrialChanges | trial.go:45-78 | Three retries end a trial, evidence clears it, a trial begins exactly when none is active and the pause is over |
| Trials.OfferedMayBegin | trial.go:99-109 | What the selection sees as untried is exactly what may begin |
| Trials.TrialRegistry.TryBegin | trial.go:45-61 | Begins a trial exactly when none is active and the pause is over |
| Trials.TrialRegistry.Update | trial.go:62-98 | Every other change of one cell, leaving the others alone |

## Left out

- Epochs: the tier generation and the epochs are unbounded here; the program's are 64-bit and the roster's increment of the generation is not guarded against wrapping.
- CredentialRecovery: one instance is modelled and a save holds the manager's lock throughout; a hook that fails rolls the state back, but the last transition, settled in place before the copy was taken, stays settled, and that is a step of the model (credential_wal.go:246-305, 316-335). The checks for a token of another instance, a missing chain or an invalid cursor, which end a call without a change, are not modelled.
- BindingRegistry.Registry.ReconcileRosterTiers: the single-tier variant that first picks the highest priority is not modelled.
- BindingRegistry: the bootstrap that always issues admission 1 and generation 1 is not modelled.
- ProbeProtocol: steps on the window map that accompany a record's change are not part of the protocol state; the controller's windows are modelled by themselves.
- ProbeProtocol: the unconditional overwrite of a record by the legacy refresh path is not modelled.
- ProbeState: windows are only moved by events; loading, re-arming after confirmation and the block flag of a login are not modelled.
- Disk: a rename is durable at once; the directory sync may fail after it, which makes the write report an error. The crash window between moving both corrupt files aside and rewriting is outside the claims.
- Disk: a file is missing, readable or corrupt; other read errors, which make the program give up without a change, are not modelled.
- Store: an update is represented by the state it produces; an update function that returns an error writes nothing and is no step.
- Fence: one allocator is alive per store.
- RetryRun: the clock and cancellation are part of the upstream script, and what a frame means is a parameter. Every error has a text; an error without one would close the stream as if there were none. Shadow mode, request rewriting, statistics and the configuration of chains are not modelled.
- Frames: bytes, blank lines and buffering are modelled; what a frame means and what counts as JSON are parameters.
- Selection: the library sort is an insertion sort here, as the library's own is for at most twelve accounts; for more, its result on accounts that are not all comparable is not modelled. Account ids are numbers in the order of their strings.
- Picking: what follows a begun trial, the evidence intent and its pending mark (scheduler_snapshot.go:81-87), is not modelled; the other users of the registry are arbitrary events between two of its uses.
- TypedReads: a drain or a cancellation drops queued reads one at a time, any of them; that a drain also refuses every later request is left to the environment.
- TypedReads: the start sequence allocator is always configured, as it is in production.
- Coordinator: the published snapshot, HTTP slots, closing and waiting for futures are not modelled, nor is the capacity of the command channel.
- The C ABI, host callbacks, JWT and JSON extraction (main.go, runtime_host_adapter.go, auth.go, auth_transaction.go, retry_hostcall.go) are not part of this model.
- User interface, routing and logging (management.go, management_page.go, annotations.go, dispatch.go, pick_activity.go) are not part of this model.
- Configuration, user data and quota decoding (config.go, disk_state.go, user_data.go, quota.go, usage.go, stream_observer.go, retry_classify.go, retry_frames.go) are not part of this model.
- managed_lifecycle.go and roster_controller.go: ownership of operator edits and revision ordering hold only under side conditions the code does not enforce.
- state.go, refresh_controller.go, capability.go: the circuit breaker counts one account's failures and successes against thresholds, and due times and tier groups are computed afresh from one snapshot. They share no state with the histories modelled here; what they answer enters as part of an account's view or of a roster line.
