# Pacium: a verified model of its durable protocols and bounded streams

This project models, in Dafny, the parts of Pacium where state survives crashes, where asynchronous calls
overlap, and where a bounded structure must agree with a simple description of what it keeps.

* **Decisions, deliveries and resolutions.** `SerialStore` is the write discipline of the JSON stores: mutations
  chained on one promise tail, each installed by temporary file, rename and directory sync, on a disk that is the
  visible document together with every document a power loss may leave. `QueueRecords`, `QueueMutations` and
  `QueueHistory` are the queue document and its four mutations; `QueueReconciliation` the checks of a lifecycle
  resolution; `QueueProtocol` the transition system in which any number of `deliver` and `resolve` calls are cut at
  every `await` and the process or the machine may stop between any two steps. `QueueAnswers` tells what each mutation
  is answered, and `QueueAgreement` that what the services let through is what the store accepts; `QueueSafety`,
  `QueueIdempotence`, `QueueFlight`, `QueueGap`, `QueueTargets` and `QueueLabels` show what holds, and what does not,
  along every run. `CanonicalHash` is the canonical form the hashes are taken of. `AnswerFile` is the effect of a
  delivery to a file.
* **The terminal mirror.** `TerminalSplit` cuts output into frames, `TerminalSession` is the promise chain that
  feeds the headless terminal and the snapshots that wait on it, `TerminalMirror` adds the hub, the socket and the
  client with any number of attaches, `TerminalAttach` is the case of one outstanding attach, `TerminalStale` a run in
  which an old snapshot costs the record a chunk for good, and `TerminalRecovery` the run that heals any such loss.
* **The queue observer.** `StableRead` is the read loop over a file that others write, `QueueObservation` the state
  of a source, `QueueObserver` the overlapping reads with generation, sequence, version stamp and cached
  classification, `QueueItems` since when an item is shown, and `QueueReads` what becomes of each read.
* **Bounded structures.** `ConfigStore` (compare-and-swap), `VerificationRunner` with `VerificationVerdict` (what a
  finished run is reported as, told from its events), `VerificationOutput`, `JsonLines`,
  `GitStatus` and `GitChanges`, `RelaunchCatalogue` and `Fingerprints`. `Sorting` and `Options` are shared helpers.

Where the source changes fields or arrays in place the model has a class whose methods are proved equal to a
function on values; the lemmas are about that function and its runs.

What the proofs found, beyond the properties they confirm:

* An attempt becomes visible on disk before the service marks it active. In that gap an operator can confirm it as
  not delivered and a retry can start. The gap is exact: two attempts of one decision are never in flight together
  if no confirmation is let through in it (`QueueFlight.AtMostOneInFlight`), and from every reachable state in which
  one is, with room for a retry, some continuation has two in flight (`QueueGap.GapIsExact`).
* A retry goes to the target of the first attempt only as far as the call that makes it knew of the first attempt. A
  call that read the document before the first attempt was stored is not held to that target, and the store does not
  compare targets: the second attempt has the first one's target unless it was submitted by such a call
  (`QueueTargets.RetryKeepsTarget`), and from every reachable state in which such a call is ready, over an unlocked
  first attempt with room for a second, it can be sent to any other target (`QueueTargets.BlindIsExact`,
  `QueueTargets.RetryCanMisaim`).
* The outcome of a pending attempt can be stored exactly when no resolution names the attempt
  (`QueueHistory.FinishAcceptedIff`): storing it would change the hash that the resolution binds.
* "Retry ready" is shown only while the confirmation is the latest label; a later label hides a retry that the store
  would still accept (`QueueReconciliation.ReadyIff`).
* The client shows exactly the output if and only if its last snapshot neither was older than the point from which
  it kept frames nor lay behind a frame delivered before it that is not restored (`TerminalMirror.MirrorIsExact`,
  for all runs). A second snapshot is harmless exactly when no frame beyond it has been delivered
  (`TerminalMirror.LaterSnapshotIff`). With one outstanding attach only the full frame buffer can lose a frame
  (`TerminalAttach.OnlyOverflowLoses`); selecting a session again before its first snapshot can lose one
  (`TerminalStale.StaleSnapshotLoses`). A new connection always heals the mirror (`TerminalRecovery.MirrorRecovers`).
* What the Codex bridge forwards depends on how the bytes arrive exactly when a forwarded line is one byte over the
  bound and ends in a carriage return (`JsonLines.ChunkingIsIrrelevantIff`).
* The relaunch catalogue is the top of all sessions ever stored as long as no session moves to an earlier creation
  time (`RelaunchCatalogue.BoundedIsTopOfAll`). One upsert keeps it the top if and only if its session is not listed,
  nothing has been cut off, or it still sorts before the first session cut off (`RelaunchCatalogue.UpsertKeepsTopIff`).
  The callers (`apps/local-server/src/session-manager.ts:721`, `:765` and `:1223`) give a session one creation time
  and keep it, so the input that fails (`RelaunchCatalogue.DatesMustStay`) only reaches the public `upsert`.

## Model

| member | source | states |
|---|---|---|
| `SerialStore.StateFile.AtomicWrite` | apps/local-server/src/queue-decision-store.ts:722-752 | the file changes exactly when everything up to the rename succeeded; "durability unknown" means replaced but perhaps not durable, any other failure leaves the disk as it was, and no handle stays open |
| `SerialStore.StateFile.Mutate` | apps/local-server/src/queue-decision-store.ts:671-698 | one inspect, plan, persist and verify pass has exactly the answer and disk of the atomic form |
| `SerialStore.HeadCompletes` | apps/local-server/src/queue-decision-store.ts:280-329 | the step by step protocol, left uninterrupted, refines the atomic form for every outcome of its file operations |
| `SerialStore.RunLinearises` | apps/local-server/src/queue-decision-store.ts:280-329 | in every run without a crash, all answers and the disk are those the submitted mutations give one after another, each atomic, in call order |
| `SerialStore.ExecKeepsInv` | apps/local-server/src/queue-decision-store.ts:671-752 | along every run with restarts and power losses, what an answered "recorded" saw is an ancestor of every document a crash could leave |
| `SerialStore.StoppedIsSilent` | apps/local-server/src/queue-decision-store.ts:280-329 | what was not answered when the process or the machine stopped is never answered, and the disk is as it was, or one of the documents that were possible |
| `QueueHistory.DescendantExtends` | apps/local-server/src/queue-decision-store.ts:331-669 | later documents only append records or turn one null outcome into a fixed one, one revision per mutation |
| `QueueHistory.WriteKeepsInv` | apps/local-server/src/queue-decision-store.ts:331-669 | every mutation keeps source keys distinct, hashes valid, confirmations bound to undelivered hashes and at most two attempts per decision, without help from the document schema |
| `QueueAnswers.AppendAnswers` | apps/local-server/src/queue-decision-store.ts:331-407 | a decision is stored exactly if its hash is right, its item is not decided and there is room; a decided item is answered "existing" for the same payload and refused as decided for another |
| `QueueAnswers.BeginAcceptedIff` | apps/local-server/src/queue-decision-store.ts:409-516 | an attempt is stored exactly if its decision is stored and has no attempt or one unlocked, its identifier is new, its payload is that of the first attempt, and there is room |
| `QueueAnswers.BeginAnswers` | apps/local-server/src/queue-decision-store.ts:409-516 | it is answered "existing" exactly if it is stored or its decision has an attempt that is not unlocked, or two |
| `QueueAnswers.FinishAnswers` | apps/local-server/src/queue-decision-store.ts:518-594 | an outcome is stored exactly for a pending attempt that no label names, answered "existing" exactly when it is the stored one, and refused otherwise |
| `QueueAnswers.LabelAnswers` | apps/local-server/src/queue-decision-store.ts:596-669 | a label with a new action is refused as too many exactly at the bound, and stored at the end otherwise, if it fits |
| `QueueHistory.RetryOnlyOverUndelivered` | apps/local-server/src/queue-decision-store.ts:455-473 | the store begins a second attempt only over a first one that is confirmed and not delivered |
| `QueueHistory.NoRetryOverDelivered` | packages/contracts/src/queue-delivery.ts:461-679 | in an accepted document the first of two attempts never has a delivered outcome |
| `QueueHistory.FinishSchemaIff` | packages/contracts/src/queue-delivery.ts:461-679 | storing an outcome leaves a valid document exactly when no resolution refers to the attempt |
| `QueueHistory.FinishAcceptedIff` | apps/local-server/src/queue-decision-store.ts:518-594 | a pending outcome can be stored exactly when no resolution refers to the attempt |
| `QueueHistory.RecordedIsDurable` | apps/local-server/src/queue-decision-store.ts:671-698 | the effect of every mutation answered "recorded" is in every document a crash could leave |
| `QueueHistory.CrashOnlyUndoes` | apps/local-server/src/queue-decision-store.ts:722-752 | a power loss goes back to an ancestor and undoes only mutations never answered "recorded" |
| `QueueReconciliation.CheckedBindsUndelivered` | apps/local-server/src/queue-reconciliation-service.ts:163-204 | whatever stale snapshot a resolve call works from, a confirmation it lets through binds the hash of an undelivered attempt |
| `QueueAgreement.CheckIff` | apps/local-server/src/queue-reconciliation-service.ts:137-193 | on every document the schema accepts, with room for a label, the check lets a request through exactly when the store accepts the label built from it, except that it also refuses to label an attempt that is pending and being delivered |
| `QueueAgreement.LetThroughIff` | apps/local-server/src/queue-reconciliation-service.ts:137-193 | a request is let through exactly if everything it names is stored, its attempt is not being delivered, its action comes after all labels of the decision, and it does not deny a delivered outcome |
| `QueueAgreement.CheckAnswers` | apps/local-server/src/queue-reconciliation-service.ts:142-171 | each refusal says which part of the request is wrong: the decision, its hash, the delivery, its hash or the related decision, in this order |
| `QueueAgreement.LabelAgain` | apps/local-server/src/queue-decision-store.ts:596-627 | the same action again, under a new identifier and at another time, is answered "already" if it says the same about the same delivery or decision, and refused otherwise |
| `QueueAgreement.LabelsRise` | packages/contracts/src/queue-delivery.ts:461-679 | the labels of a decision are perhaps a confirmation, then perhaps an acknowledgement, then perhaps one closing action; none occurs twice |
| `QueueAgreement.AttemptIff` | apps/local-server/src/queue-delivery-service.ts:217-288 | a deliver call goes on exactly when the store would accept a new attempt with the payload of the first, and it takes it for a retry of the only one stored |
| `QueueLabels.StoredLabelsAreShaped` | packages/contracts/src/queue-reconciliation.ts:108-131 | in every document of every run a supersession names a decision and no delivery, and every other label a delivery and no decision |
| `QueueReconciliation.LatestConfirmationUnlocks` | apps/local-server/src/queue-decision-store.ts:455-473 | when the latest label of a decision with one attempt is a confirmation, it unlocks exactly that attempt |
| `QueueReconciliation.ReadyIff` | apps/local-server/src/queue-reconciliation-service.ts:349-369 | "retry ready" is advertised exactly when one attempt is unlocked and its confirmation is the latest label |
| `QueueLabels.ReadyAlongRuns` | apps/local-server/src/queue-reconciliation-service.ts:349-369 | in every document of every run "ready", "locked" and "exhausted" are advertised under exactly the stated conditions |
| `QueueProtocol.RecordedIntentIsStored` | apps/local-server/src/queue-delivery-service.ts:145-170 | when a call may invoke its target, its intent is in every document a crash could leave |
| `QueueProtocol.ProtocolInvariant` | apps/local-server/src/queue-delivery-service.ts:107-215 | the system invariant holds along every interleaving of deliver and resolve calls, crashes and restarts; `InvocationBound`, `RetryKeepsTarget` and `StoredLabelsAreShaped` are what it is for |
| `QueueSafety.AcceptedDocumentStarts` | packages/contracts/src/queue-delivery.ts:461-679 | every document that inspection accepts, if it has one decision per source item, satisfies the invariant the runs start from |
| `QueueSafety.InvocationBound` | apps/local-server/src/queue-delivery-service.ts:145-188 | in every interleaving each attempt is invoked at most once, is then in every document a crash could leave, and a decision has at most two attempts and at most two invocations |
| `QueueSafety.RecordedSurvives` | apps/local-server/src/queue-decision-store.ts:671-698 | a mutation answered "recorded" shows in all later documents, whatever crashes come after |
| `QueueSafety.VisibleStep` | apps/local-server/src/queue-decision-store.ts:671-752 | each step changes the visible document by one accepted mutation and one revision, or back to an ancestor when power fails |
| `QueueSafety.NeverRetriedAfterDelivery` | apps/local-server/src/queue-reconciliation-service.ts:163-193 | no document of any run holds a second attempt next to a delivered first one, even with resolve calls that work from stale snapshots |
| `QueueIdempotence.RepetitionIsIdempotent` | apps/local-server/src/queue-decision-store.ts:280-329 | a mutation submitted again after it was answered "recorded", at any later time and after any crashes, is answered "already" and changes nothing |
| `QueueIdempotence.MutationAgain` | apps/local-server/src/queue-decision-store.ts:331-669 | in every document that descends from the one a mutation made, planning it again finds it there |
| `QueueIdempotence.DecisionIsFinal` | apps/local-server/src/queue-decision-store.ts:350-368 | once an item is decided, an append for it is a repetition exactly when the payload is the same and refused otherwise |
| `QueueFlight.AtMostOneInFlight` | apps/local-server/src/queue-delivery-service.ts:170-188 | if no confirmation is let through while the intent it names is still awaited, two invocations in flight are always of different decisions |
| `QueueGap.GapIsExact` | apps/local-server/src/queue-delivery-service.ts:145-171 | the guard is necessary: from any reachable state, a confirmation let through for an attempt whose visible intent is awaited, accepted and with room for a retry, can be continued to two attempts of the decision in flight |
| `QueueGap.GapLetsTwoFly` | apps/local-server/src/queue-delivery-service.ts:145-171 | such a state exists: a run from one stored decision has two attempts of it in flight |
| `QueueTargets.RetryKeepsTarget` | apps/local-server/src/queue-delivery-service.ts:355-417 | in every document a run could leave, the second attempt of a decision has the target of the first, unless it was submitted by a call that had read a document without an attempt of it |
| `QueueTargets.BlindIsExact` | apps/local-server/src/queue-delivery-service.ts:107-145 | that exception is exact: from any reachable state in which such a call is ready to submit over an unlocked attempt with room for a second, some continuation gives the second attempt any other target |
| `QueueTargets.RetryCanMisaim` | apps/local-server/src/queue-delivery-service.ts:107-145 | such a state exists: a run from one stored decision stores two attempts of it with different targets |
| `CanonicalHash.CanonicalIff` | apps/local-server/src/queue-delivery-hash.ts:7-35 | two records have the same canonical form exactly when they are the same value, whatever the order of their keys, when no two keys of one object tie |
| `AnswerFile.AnswerDirectory.Publish` | apps/local-server/src/answer-file-delivery.ts:75-137 | created exactly when the link was made, the target was seen to be a private regular file and the syncs and the removal of the temporary file succeeded; unknown exactly when the link was made and one of these failed; otherwise nothing was created and the code says why; with no failure and nobody else about, the target appears with the payload and nothing else changes |
| `AnswerFile.AnswerDirectory.ValidateMissingTarget` | apps/local-server/src/answer-file-delivery.ts:139-179 | publication goes on exactly when the target is missing, and is refused as occupied exactly when it is a regular file, whatever its mode |
| `AnswerFile.ForeignRunRelies` | apps/local-server/src/answer-file-delivery.ts:87-136 | any number of steps of other publishers and of the agent leave a publisher's temporary file and its links alone |
| `AnswerFile.TargetKept` | apps/local-server/src/answer-file-delivery.ts:87-105 | under concurrent publications to any paths an existing target keeps its bytes until somebody else writes or removes it |
| `AnswerFile.TargetConservation` | apps/local-server/src/answer-file-delivery.ts:96-105 | along every interleaving a target is present once per link or outside creation, less the removals |
| `TerminalSplit.Split` | apps/local-server/src/session-manager.ts:1488-1510 | the chunks join to the output, none is over the bound, no cut is inside a surrogate pair, and each is as long as it may be |
| `TerminalSplit.SplitIsUnique` | apps/local-server/src/session-manager.ts:1488-1510 | there is only one such split |
| `TerminalSplit.ScalarsSplitIff` | apps/local-server/src/session-manager.ts:1488-1510 | decoding two parts separately gives the text of the whole exactly when the cut is not inside a surrogate pair |
| `TerminalSplit.Utf16RoundTrip` | apps/local-server/src/session-manager.ts:1488-1510 | decoding gives back every scalar value from its UTF-16 form |
| `TerminalSplit.ChunksCarryTheText` | apps/local-server/src/session-manager.ts:1161-1165 | frames encoded one by one carry the same text as the output encoded whole |
| `TerminalSession.ReleaseSplits` | apps/local-server/src/session-manager.ts:1167-1175 | settling a link of the promise chain releases exactly the front of what waits |
| `TerminalSession.RunKeepsValidity` | apps/local-server/src/session-manager.ts:853-884 | chunks reach the terminal one at a time and in order, and every reply is an exact prefix of the output, along every run |
| `TerminalSession.SnapshotLinearises` | apps/local-server/src/session-manager.ts:853-884 | a snapshot shows exactly the output that had arrived when it was asked for, whatever arrives while it waits |
| `TerminalSession.QuietIsComplete` | apps/local-server/src/session-manager.ts:1167-1175 | when no job and no write is left, all output has been written and nothing waits |
| `TerminalSession.Settles` | apps/local-server/src/session-manager.ts:1167-1175 | from every reachable state the chain runs dry by itself |
| `TerminalSession.ManagedSession.HandleData` | apps/local-server/src/session-manager.ts:1161-1186 | one PTY event is numbered and chained as the one admissible split of its text; an event within the bound, an empty one too, is one frame |
| `TerminalSession.ManagedSession.AskForSnapshot` | apps/local-server/src/session-manager.ts:853-857 | a request captures the current sequence and waits on the current end of the chain |
| `TerminalMirror.ServerCounts` | apps/local-server/src/ws-hub.ts:369-383 | an attach under way is neither lost nor answered twice by the server |
| `TerminalMirror.SnapshotApplies` | apps/web/src/app.tsx:2448-2471 | a snapshot, the first or a later one and however old, gives itself and the buffered frames from where the record kept them, and what it fails to restore is recorded |
| `TerminalMirror.RunKeepsInv` | apps/local-server/src/ws-hub.ts:95-107 | frames on the wire are the consecutive chunks after the last one delivered, along every run |
| `TerminalMirror.MirrorIsExact` | apps/web/src/app.tsx:2480-2500 | in every interleaving, with any number of attaches outstanding, the screen is exactly the chunks up to the recorded sequence if and only if the last snapshot neither was older than where its replay starts nor lay behind the frames delivered before it, or nothing was written since |
| `TerminalMirror.MirrorCatchesUp` | apps/web/src/app.tsx:2448-2500 | once everything has settled an attached client has a snapshot, and shows all output if and only if the last one left no gap |
| `TerminalMirror.LaterSnapshotIff` | apps/web/src/app.tsx:2448-2464 | applying a snapshot over an applied one leaves no gap exactly when no frame beyond it has been delivered |
| `TerminalMirror.FirstSnapshotIff` | apps/web/src/app.tsx:2448-2492 | the first snapshot of a record leaves no gap exactly when it is not older than the record and the 1000 frames of the buffer did not overflow beyond it |
| `TerminalMirror.ScreenIsOutput` | apps/web/src/app.tsx:2448-2500 | the text on the screen is a prefix of the concatenated PTY output while the last snapshot left no gap, however it was cut into frames, and all of it once everything has settled |
| `TerminalAttach.OnlyOverflowLoses` | apps/web/src/app.tsx:883-918 | when a record is created only with no earlier attach to be answered, the screen is exact unless the full buffer dropped a frame beyond the snapshot and something was written since |
| `TerminalMirror.TerminalSync.ApplyTerminalFrame` | apps/web/src/app.tsx:2480-2500 | the object takes the step that `MirrorIsExact` is about: before the snapshot a frame is buffered, up to 1000 of them; after it one is written exactly when its number is beyond the recorded sequence |
| `TerminalMirror.TerminalSync.ApplyTerminalSnapshot` | apps/web/src/app.tsx:2448-2471 | the screen is replaced, the buffered frames beyond the snapshot are written in order, and the buffer is emptied |
| `TerminalStale.StaleSnapshotLoses` | apps/web/src/app.tsx:2448-2464 | a session selected twice before its first snapshot arrives can lose a chunk for good, with its frame buffer empty |
| `TerminalRecovery.MirrorRecovers` | apps/web/src/app.tsx:883-918 | from every reachable state, whatever was lost, a run without new output ends with a new connection that shows all output |
| `StableRead.FileSystem.ReadStableQueueFile` | apps/local-server/src/queue-file-reader.ts:66-159 | any answer but "changing" and "read error" is that of one instant of the call, when every change gives a fresh identity; in any case the hash, length and text of a stable answer are those of one byte string; with nothing happening to the file it is exactly that instant's answer |
| `StableRead.SeenTells` | apps/local-server/src/queue-file-reader.ts:66-159 | every answer of a look at one instant has exactly one cause and comes with the length, time, hash and text that can be known |
| `StableRead.FileSystem.Fill` | apps/local-server/src/queue-file-reader.ts:103-117 | with arbitrary short reads every byte in the buffer stood at its position at some time of the loop |
| `StableRead.FileSystem.UnchangedBetween` | apps/local-server/src/queue-file-reader.ts:119-127 | what was read between two looks at one identity is the whole content |
| `QueueObservation.SameEvidenceIff` | apps/local-server/src/queue-observation-model.ts:185-223 | the field by field comparison is equality of evidence |
| `QueueObservation.ReadAdvances` | apps/local-server/src/queue-observation-model.ts:50-94 | the revision rises, by one, exactly when the evidence changes, and the state takes every field from the reading |
| `QueueObservation.RereadIsQuiet` | apps/local-server/src/queue-observation-model.ts:50-94 | the same reading again at any later time changes nothing but the time of the last look |
| `QueueItems.FirstObservedIsTrue` | apps/local-server/src/queue-observation-model.ts:58-64 | along every run a source shows the item of its last look, first observed at the look since which every look has shown it |
| `QueueObserver.ReaderIsSound` | apps/local-server/src/queue-file-reader.ts:138-153 | whatever the observer is given by calls of the reader is coherent, the hypothesis of `ClassificationIsCurrent`, with no assumption on identities |
| `QueueObserver.AppliedIsLatest` | apps/local-server/src/queue-observer.ts:381-431 | a read that is applied is of the current generation, and no read or watch failure of its source began after it |
| `QueueObserver.ReadKeepsSource` | apps/local-server/src/queue-observer.ts:433-456 | reusing a cached classification gives what the classifier would give now |
| `QueueObserver.RunContinues` | apps/local-server/src/queue-observer.ts:234-271 | within a generation revisions never fall and equal revisions mean equal evidence, along every run |
| `QueueObserver.ClassificationIsCurrent` | apps/local-server/src/queue-observer.ts:433-456 | the classification of a stable source is that of its current id, hash and text, along every run |
| `QueueObserver.InspectReadyIff` | apps/local-server/src/queue-observer.ts:130-204 | an inspection is ready exactly for the identity shown now, and unavailable exactly without a configuration |
| `QueueObserver.ReadyReturnsWhatWasShown` | apps/local-server/src/queue-observer.ts:130-204 | a ready inspection returns exactly the text that was shown with its identity, even after a change of configuration and back |
| `QueueObserver.ObserverObject.ReadReturns` | apps/local-server/src/queue-observer.ts:392-431 | the object takes the step that `AppliedIsLatest` and `RunContinues` are about: a returning read is retried at most twice while the file is changing, dropped when its generation or sequence is no longer current, and applied to its source alone otherwise |
| `QueueObserver.ObserverObject.HandleWatchError` | apps/local-server/src/queue-observer.ts:340-362 | every source of the directory is interrupted and marked, and no other |
| `QueueItems.WatchFailureInterrupts` | apps/local-server/src/queue-observer.ts:340-362 | in every reachable state a watch failure interrupts exactly the sources of its directory, and each takes one sequence number |
| `QueueObserver.ObserverObject.SyncConfig` | apps/local-server/src/queue-observer.ts:234-271 | a changed configuration starts a new generation with all its sources pending |
| `QueueItems.ConfigurationRestarts` | apps/local-server/src/queue-observer.ts:234-271 | a changed configuration starts the next generation with exactly the configured sources, each listed once, unread and under its own definition |
| `QueueReads.EveryReadIsTried` | apps/local-server/src/queue-observer.ts:381-431 | a file is read at most three times for one observation, again only while it is changing, and a current read ends only with an answer that is not "changing" or the third |
| `QueueReads.DelayedReadGoesOn` | apps/local-server/src/queue-observer.ts:403-417 | after its delay a read goes on exactly if it is still current |
| `QueueReads.DisposalIsFinal` | apps/local-server/src/queue-observer.ts:296-308 | whatever arrives after disposal, nothing is shown, inspected or applied |
| `QueueReads.ReaderIsPassedOn` | apps/local-server/src/queue-file-reader.ts:66-159 | the observer takes the reader's answer as it is |
| `ConfigStore.CompareAndSwap` | apps/local-server/src/pacium-config-store.ts:191-273 | over every run, with crashes, no two calls with one expected revision both succeed, successes rise strictly and each builds on the one before |
| `ConfigStore.ReplaceEffect` | apps/local-server/src/pacium-config-store.ts:205-273 | the visible document changes exactly on success or in doubt, then by one revision; success and every refusal are told apart by the revision, the workspace and the file operations alone |
| `ConfigStore.ReplacementsLinearise` | apps/local-server/src/pacium-config-store.ts:191-203 | overlapping replacements behave like the same replacements one after another |
| `VerificationRunner.BoundedRuns` | apps/local-server/src/verification-runner.ts:224-243 | active and pending owners never exceed the bound and no owner has two runs |
| `VerificationRunner.ReportsOfARun` | apps/local-server/src/verification-runner.ts:263-288 | a run is reported running, then cancelling exactly when it was cancelled first, then once with a final status; after cancelling only cancelled or error |
| `VerificationVerdict.VerdictIsTrue` | apps/local-server/src/verification-result.ts:64-70 | a finished run is reported passed, failed, cancelled, timed out or as an error exactly as the first event that ended its process and the first request before it to terminate say, and forced exactly when the grace period had run out |
| `VerificationRunner.FirstReasonStays` | apps/local-server/src/verification-runner.ts:245-261 | the first reason to terminate and the first evidence of an end are never replaced |
| `VerificationRunner.VerificationRunnerObject.ReserveOwner` | apps/local-server/src/verification-runner.ts:224-243 | the object takes the step of `BoundedRuns`: a start is refused exactly when the owner is busy or the bound is reached |
| `VerificationRunner.VerificationRunnerObject.CancelOwner` | apps/local-server/src/verification-runner.ts:170-195 | the object takes the step of `FirstReasonStays` and `ReportsOfARun`: a cancel is refused exactly when there is no such unfinished run |
| `VerificationRunner.VerificationRunnerObject.CompleteFinish` | apps/local-server/src/verification-runner.ts:263-288 | the object takes the step that `VerdictIsTrue` is about: finishing releases the owner and reports the status derived from the evidence |
| `VerificationOutput.CaptureIsOfStream` | apps/local-server/src/verification-output.ts:15-50 | what is captured depends on the concatenation of the chunks alone |
| `VerificationOutput.VerificationOutputCapture.Finish` | apps/local-server/src/verification-output.ts:52-61 | the text is the longest prefix that fits of the whole stream, or of exactly its two ends around the marker, normalised; it is cut only if decoding made it too long |
| `VerificationOutput.BoundUtf8Text` | apps/local-server/src/verification-output.ts:92-109 | the result is the longest prefix within the byte bound |
| `VerificationOutput.LongestPrefixIsUnique` | apps/local-server/src/verification-output.ts:92-109 | there is only one such prefix |
| `VerificationOutput.Utf8SizeIsTrue` | apps/local-server/src/verification-output.ts:92-109 | the size counted for a character is that of its UTF-8 form |
| `VerificationOutput.NormaliseIsClean` | apps/local-server/src/verification-output.ts:78-90 | normalised text has no carriage return and no control character but tab and newline, and normalising again changes nothing |
| `VerificationOutput.NormaliseIsUnique` | apps/local-server/src/verification-output.ts:78-90 | normalising is the only function that treats each character as it does, a carriage return with its line feed as one, and text part by part |
| `VerificationOutput.NormaliseShrinks` | apps/local-server/src/verification-output.ts:78-90 | normalising never lengthens the UTF-8 form |
| `JsonLines.ChunkingIsIrrelevantIff` | apps/local-server/src/codex-runtime-bridge.ts:196-247 | what is forwarded and whether the bridge fails is independent of chunking if and only if no forwarded line is one byte over the bound |
| `JsonLines.DrainIsSplit` | apps/local-server/src/codex-runtime-bridge.ts:205-233 | forwarding is splitting the stream on newlines, dropping one trailing carriage return, up to the first bad line |
| `JsonLines.ForwardsIff` | apps/local-server/src/codex-runtime-bridge.ts:210-226 | a line forwards the message it carries, less one carriage return, exactly if that is not empty, not too long and JSON |
| `JsonLines.RuntimeBridge.OnData` | apps/local-server/src/codex-runtime-bridge.ts:196-247 | the loop forwards exactly the lines completed by the chunk, keeps the unfinished one, and fails at a bad or oversized one |
| `GitStatus.RoundTrip` | apps/local-server/src/git-changes-model.ts:40-93 | parsing the print of any records gives their projection in order, or reports exactly too many or duplicate paths; a previous path is never read as a record |
| `GitStatus.AcceptsExactlyPrints` | apps/local-server/src/git-changes-model.ts:40-93 | the accepted texts are exactly the prints of admissible records, the last NUL being optional |
| `GitStatus.ParseOneOf` | apps/local-server/src/git-changes-model.ts:193-234 | a printed record parses to what it means whatever follows, and takes exactly its own tokens |
| `GitStatus.ProjectionTells` | apps/local-server/src/git-changes-model.ts:193-277 | a record means what its letters say: staged, unstaged, conflicted and the kind of change |
| `GitStatus.ParentSegmentIff` | apps/local-server/src/git-changes-model.ts:305-319 | a path is refused for its segments exactly when ".." is one of them, with slashes of either kind |
| `GitStatus.SafePathIff` | apps/local-server/src/git-changes-model.ts:305-319 | a path is taken exactly if it is neither empty nor too long, has no NUL, is not absolute in either style and has no ".." among its segments |
| `GitStatus.ParsePorcelainV2` | apps/local-server/src/git-changes-model.ts:40-93 | the record loop and the duplicate check together compute the parse of the round trip |
| `GitChanges.SecondPassAgrees` | apps/local-server/src/git-changes.ts:131-143 | the second aggregation lists the same files in the same order with the same totals, each with the size read for it |
| `GitChanges.CountsOfAFile` | apps/local-server/src/git-changes-model.ts:143-170 | the counts listed for a file are the sums over its path and its previous path, absent when neither has an entry or one is binary |
| `GitChanges.TotalsAreSums` | apps/local-server/src/git-changes-model.ts:178-187 | the totals count and add up the listed files |
| `GitChanges.AnySortAgrees` | apps/local-server/src/git-changes-model.ts:279-303 | with distinct paths the order does not depend on the sorting algorithm |
| `GitChanges.ListingOrder` | apps/local-server/src/git-changes-model.ts:279-303 | conflicts are listed first, then what is staged and unstaged, staged, unstaged and the rest, each by path |
| `GitChanges.ListsTheFirst` | apps/local-server/src/git-changes-model.ts:176-190 | the listed files are the first of all in order, and the flag says exactly whether some were cut off |
| `GitChanges.MergedIsTotal` | apps/local-server/src/git-changes.ts:204-227 | merged counts are the sums over all entries of a path, and absent when one is binary or has none |
| `GitChanges.MergeNumstats` | apps/local-server/src/git-changes.ts:204-227 | the loop merges every path once, and returns the paths in order of first appearance |
| `GitChanges.AppearancesInOrder` | apps/local-server/src/git-changes.ts:204-227 | the paths in order of first appearance are those of the entries, and their first entries stand at strictly rising positions |
| `RelaunchCatalogue.BoundedIsTopOfAll` | apps/local-server/src/relaunch-manifest-store.ts:128-152 | while ids and sessions determine each other and no session moves to an earlier creation time, the bounded list is the top of the sorted latest manifests of all sessions ever stored |
| `RelaunchCatalogue.UpsertKeepsTopIff` | apps/local-server/src/relaunch-manifest-store.ts:128-152 | one upsert of a list that is the top of all sessions gives the top again if and only if the session is not listed, nothing was cut off, or the manifest sorts before the first one cut off |
| `RelaunchCatalogue.LatestIff` | apps/local-server/src/relaunch-manifest-store.ts:132-135 | a manifest is a latest one exactly when no later one has its id or session |
| `RelaunchCatalogue.StoredIsUnique` | apps/local-server/src/relaunch-manifest-store.ts:132-142 | whatever is upserted, the list is bounded and sorted and has each id and session once |
| `RelaunchCatalogue.DatesMustStay` | apps/local-server/src/relaunch-manifest-store.ts:128-152 | a listed session that moves to an older creation time does not bring back the session it had pushed out |
| `RelaunchCatalogue.RelaunchManifestStore.UpsertOnce` | apps/local-server/src/relaunch-manifest-store.ts:128-152 | memory is always the bounded list of all successful upserts; a failed write leaves the file alone, and when durability is unknown the file shows the upsert that memory does not have |
| `RelaunchCatalogue.RelaunchManifestStore.Restart` | apps/local-server/src/relaunch-manifest-store.ts:72-112 | after a restart memory is one of the lists on disk: that of the successful upserts, or of those and the one in doubt |
| `Fingerprints.FrameIsInjective` | apps/local-server/src/claude-observer.ts:720-729 | the length-framed digest input determines the list of fields, whatever their number and content |
| `Fingerprints.DuplicateIff` | apps/local-server/src/claude-observer.ts:696-747 | an event is a duplicate exactly when its fields are those of one of the last 128 accepted events |
| `Fingerprints.ObservedSession.IngestEvent` | apps/local-server/src/claude-observer.ts:191-222 | the object keeps its queue and set in step and gives that verdict |

## Left out

- SHA-256, UUIDs, JSON text and UTF-8 decoding: hashes are injective constructors, random ids are fresh, decoding is a
  parameter; the framing of a digest and the canonical form of a record are modelled.
- Zod schemas: records are typed data with their limits; of the schemas only the cross-checks of the queue document
  (`packages/contracts/src/queue-delivery.ts`) are modelled, and the invariants of the store are proved without them.
- Schema versions 1 and 2 of the queue document and their migration: only version 3 is modelled.
- Sockets, HTTP routing, process spawning, tmux, Git commands and timers: only the events they deliver, in any order.
- File ownership and mode checks, origin and token checks: a file that fails them counts as a failed operation.
- What deliver and inspect answer to their callers: a projection of the stored attempts and the active set.
- Delivery to a terminal: the invocation is one step that may fail; what the agent reads is not modelled.
- xterm internals, resizing and truncated snapshots: a terminal is the list of chunks it was given.
- SessionManager: one session and one epoch; several sessions are several copies.
- `terminal.attach` failing: the removal of a subscription when the snapshot of a missing session fails.
- QueueObserver: subscribers, debouncing and the rebuilding of the aggregate; the states it is built from are modelled.
- QueueObserver.decisionSourceIdentity: a projection of a ready inspection.
- VerificationRunner.shutdown and a failing head observation at the end of a run, which leaves the run unfinished.
- JsonLines: back pressure and the other ways a bridge is closed; they only end the run earlier.
- GitStatus: the bound on the size of the whole output, and the parsing of line counts (`parseNumstat`).
- CanonicalHash.CanonicalIff: speaks of objects in which no two keys tie under `localeCompare`; tied keys keep the
  order they came in, and keys that look like array indices, which `Object.fromEntries` puts first in numeric order
  whatever the sort, are not modelled. The records hashed here have neither: their keys are fixed field names.
- ConfigStore.PlanReplace: a negative or unsafe expected revision is refused after the file is inspected, the TypeScript
  code before, so with an unreadable file the two name different errors.
- Package process lock, launchers, diagnostics, Tailscale, tmux discovery and the user interface beyond the terminal.
- QueueTargets.RetryKeepsTarget: leaves out attempts submitted by calls that had read a document without an attempt,
  because neither the service nor the store holds them to the first target.
- QueueAgreement.CheckIff: assumes that no two stored decisions have one identifier; the identifiers are random.
- QueueFlight.AtMostOneInFlight: states the guard as an assumption on the run, because the code does not enforce it.
