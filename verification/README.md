# Proofs about the BrowShare Worker

This project models the in-process state of the BrowShare Worker: the classes that multiplex, account, fence and
schedule. Each component is a transition system whose steps are the pieces of JavaScript between two awaits. Time is
an integer that never decreases, and the file system, Chrome, the sockets and the rest of the system are choices made
outside the model. Lemmas state what holds over every run; classes beside them do the same work in place, and each of
their methods is proved to do exactly what the transition system says.

| files | component |
|---|---|
| `CdpBridgeModel`, `CdpBridgeProofs`, `CdpFraming`, `CdpOnePipe`, `CdpNonInterference`, `CdpPrivatePipes`, `CdpRaces`, `CdpAnswers`, `CdpPipeBridge` | one pipe to Chrome shared by many clients |
| `ScriptRuntime` | the policy script scheduler |
| `StorageObservation`, `StorageScan` | roots and the disk scan |
| `StorageUsage`, `StorageQuota`, `StorageProtection` | usage and admission |
| `StorageRuns`, `StorageBalance`, `StoragePaths`, `StorageCounterexamples` | the quota over whole runs, with scans and releases that take time |
| `StoragePolicies`, `ProfileReports` | versioned quota policies, rotating reports |
| `StoredReservation`, `SafeFilename`, `SessionStorage` | upload files and their ledger |
| `RetainedDownloadsModel`, `RetainedDownloadsProofs`, `RetainedDownloadsOutcomes`, `RetainedDownloadsAnswers`, `RetainedDownloads` | kept downloads and their leases |
| `SessionQuota`, `LedgersAgree`, `DownloadReports` | the limit shared by uploads and downloads, their agreement with the Worker-wide ledger, reconciliation with the Backend |
| `SessionRecycling`, `TabSessionsModel`, `TabSessions` | recycling clock, creation and retirement of Sessions |
| `CommandCache`, `ProfileCommands` | idempotency cache, per-Profile queue and generation fence |
| `LikeEscape` | escaping of search text |
| `Basics`, `Totals` | shared vocabulary, sums over maps |

## What does not hold

Where the code does not give what it seems to promise, the model keeps the code, a lemma shows the case with its input,
and the property is proved under the condition that separates the two; "exactly" means that both directions are proved.

- The limit shared by uploads and downloads breaks exactly when a commit ends with a file larger than its reservation
  by more than what is left, as after re-reserving it for fewer bytes (`SessionQuota.LimitHoldsExactly`,
  `SessionQuota.LimitCanBeBroken`). The Worker-wide ledger and the store disagree about a download's size exactly if its
  reservation was resized during its commit (`LedgersAgree.DownloadBytesAgreeExactly`, `LedgersAgree.ResizedCommit`).
- Cleaning up a Session overwrites a longer retirement that a close had asked for
  (`TabSessionsModel.LateCreationAfterClose`).
- The accounting of the Worker's bytes, meaning a disk within the quota and an observation that hides nothing of it,
  stays sound over a run exactly if its steps are careful (`StorageRuns.StaysSoundExactly`). Two that may not be:
  shrinking a reservation below bytes on disk that were not observed (`StorageRuns.ReserveExact`), and a release whose
  paths are written between lstat and its end (`StorageRuns.ReleaseExact`). Neither passes the quota by itself
  (`StorageRuns.DiskStaysWithin`), but a later grant then may, the largest one exactly if the observation counts less
  than the disk (`StorageBalance.LargestGrantIsSafeExactly`, `StorageCounterexamples.ShrinkingBelowTheDisk`,
  `StorageCounterexamples.StaleRelease`). A reservation made under a key that is being released is lost
  (`StorageBalance.LaterReservationIsLost`).
- A quota of 2^53 - 1 refuses no size, because usage is capped there; every smaller one is exact
  (`StorageQuota.QuotaAtCapRefusesNoSize`, `StorageQuota.QuotaBelowCapIsExact`).
- Reservations that share a path make usage depend on their order, exactly if they take in unequally many of the
  bytes they share (`StorageUsage.OrderMattersExactly`). Uploads and downloads never share one
  (`StoragePaths.ReservationsNeverOverlap`).
- A scan may count more than lies on disk, exactly if for some reservation it has seen more than both its bytes and what
  lies on its paths (`StorageBalance.ScanCountsMoreExactly`); a file renamed meanwhile is counted twice
  (`StorageCounterexamples.ScanMayCountTwice`).
- A finish that was accepted can still be overtaken by expiry, exactly if writing its own claim fails
  (`RetainedDownloadsOutcomes.FinishIsKeptExactly`, `RetainedDownloadsOutcomes.FailedClaimMayExpire`).
- What a failed open leaves behind stays counted until cleanup, to the byte
  (`SessionStorageLedger.ReservedIsDeclaredAndLeaked`, `SessionStorageLedger.FailedRemovalStaysReserved`).
- The policy file can go back to a lower version, though never below what the Worker holds, exactly while the Worker
  holds an older version than the file after a call that failed behind the rename
  (`StoragePolicies.FileStepsBackExactly`, `StoragePolicies.FileMayStepBack`).
- A command that completes is forgotten at once, and a repetition runs again, exactly if the cache is full and no other
  command is to be evicted before it (`CommandCaching.ForgottenAtOnceExactly`, `CommandCaching.CompletingInAFullCache`,
  `CommandCaching.CompletingInTheSameMillisecond`).
- The generation fence needs the per-Profile queue (`ProfileCommands.ReplacementBreaksFence`,
  `ProfileCommands.OverlapBreaksFence`).
- The idle alarm of a script worker that dies stays armed, and fails jobs that wait for its termination
  (`ScriptRuntimeModel.IdleAlarm`, `ScriptRuntimeModel.IdleAlarmReachable`).
- An event of a session nobody owns yet is lost, so one in the same chunk as the reply to an attachment is
  (`CdpRaces.EventLostExactly`, `CdpRaces.EventRacingAttach`).
- Clients of a closed bridge keep their pendingIds (`CdpBridgeProofs.PendingIdsAfterClose`).

## Model

| member | source | states |
|---|---|---|
| `CdpPrivatePipes.MultiplexingIsInvisible` | apps/worker/src/cdp-pipe-bridge.ts:168-376 | Over any run, what one client has in flight, its sessions, its unread bytes, its refusals and the messages it is sent are exactly those of a pipe of its own that judges commands, picks events and gives up on a slow reader by itself; it is cut off from outside only when the bridge ends. |
| `CdpNonInterference.OthersAreNotFelt` | apps/worker/src/cdp-pipe-bridge.ts:168-265 | However many events of other clients happen, connecting, commands, refusals, drops and slow sockets included, a client's state and messages stay as they are, unless the bridge ends. |
| `CdpPrivatePipes.StepRefines` | apps/worker/src/cdp-pipe-bridge.ts:168-376 | The same for one event of any kind, seen by any client. |
| `CdpPrivatePipes.RouteRefines` | apps/worker/src/cdp-pipe-bridge.ts:329-361 | One message from Chrome is, for each client, the reply, event or session move of its own pipe, or nothing. |
| `CdpPrivatePipes.SubmitRefines` | apps/worker/src/cdp-pipe-bridge.ts:191-228 | Any message of a client, valid or not, does on the bridge what it does on the client's own pipe, the shared pipe deciding only whether there is room. |
| `CdpBridgeProofs.TablesAgree` | apps/worker/src/cdp-pipe-bridge.ts:168-265 | In every reachable state the in-flight table restricted to a live client is in bijection with its pendingIds, every owner and every issuer in flight is a live client, and no internal id is written to Chrome twice. |
| `CdpBridgeProofs.RepliesAreAttributed` | apps/worker/src/cdp-pipe-bridge.ts:329-348 | Every reply ever delivered went to the client that issued the command, under its original id, and no internal id is answered twice. |
| `CdpBridgeProofs.StepKeeps` | apps/worker/src/cdp-pipe-bridge.ts:132-376 | Every event keeps the agreement of the tables and the attribution of replies. |
| `CdpBridgeProofs.ForwardedAsOwnCommand` | apps/worker/src/cdp-pipe-bridge.ts:199-223 | A client's message puts nothing on the pipe, or exactly that message under a fresh internal id recorded as the client's, in a session the client owns or its browser session. |
| `CdpBridgeProofs.PendingIdsAfterClose` | apps/worker/src/cdp-pipe-bridge.ts:132-159 | close empties the in-flight table but not pendingIds: for a client it ends, the two still agree exactly if nothing was in flight. |
| `CdpRaces.EventLostExactly` | apps/worker/src/cdp-pipe-bridge.ts:350-360 | An event is routed without a trace exactly if nobody owns its session. |
| `CdpRaces.EventRacingAttach` | apps/worker/src/cdp-pipe-bridge.ts:176-184 | From the start: an event in the same chunk as the reply to its client's attachment is lost. |
| `CdpRaces.EventAfterAttach` | apps/worker/src/cdp-pipe-bridge.ts:176-184 | One chunk later the same event is delivered. |
| `CdpAnswers.CommandWrittenExactly` | apps/worker/src/cdp-pipe-bridge.ts:191-228 | A client's message reaches Chrome exactly if it is acceptable and there is room for it: under the next serial, in the session it names or else the client's browser session, and entered in both tables. Any other message drops the client and writes nothing. |
| `CdpAnswers.CommandEndsBridgeExactly` | apps/worker/src/cdp-pipe-bridge.ts:295-307 | A command ends the bridge exactly if it is acceptable, not too large by itself, and would overflow the queue to Chrome. |
| `CdpAnswers.UnreadableDrops` | apps/worker/src/cdp-pipe-bridge.ts:191-198 | An unreadable message drops its client; a client already dropped is not heard. |
| `CdpAnswers.SentExactly` | apps/worker/src/cdp-pipe-bridge.ts:363-375 | What a client is sent is the message itself, without its sessionId exactly if that names the client's own browser session; a client whose socket has no room is dropped instead. |
| `CdpAnswers.RepliedExactly` | apps/worker/src/cdp-pipe-bridge.ts:330-348 | A reply goes to the client that sent the command, under its own id, frees that id and makes a session in the result its own. |
| `CdpAnswers.EventSentExactly` | apps/worker/src/cdp-pipe-bridge.ts:350-360 | An event goes to the owner of its session; an attached child is owned from before, a detached one by nobody after. |
| `CdpAnswers.CommandRoundTrip` | apps/worker/src/cdp-pipe-bridge.ts:191-348 | A command that is written and answered comes back to its client under its own id, and leaves the tables as they were. |
| `CdpAnswers.CallWrittenExactly` | apps/worker/src/cdp-pipe-bridge.ts:267-307 | A call of the bridge is written under the next serial, and in flight, exactly if there is room. |
| `CdpAnswers.AttachWrittenExactly` | apps/worker/src/cdp-pipe-bridge.ts:168-190 | A client that connects is attached by a call of its own, or the bridge is to end. |
| `CdpAnswers.DroppedExactly` | apps/worker/src/cdp-pipe-bridge.ts:231-257 | A dropped client leaves every table and its browser session is detached, written out, or the bridge is to end. |
| `CdpAnswers.CallAnsweredExactly` | apps/worker/src/cdp-pipe-bridge.ts:330-340 | The reply to a call ends it: a failed attach or detach ends the bridge, a failed query does not, an attach goes on with the session named. |
| `CdpAnswers.CallTimedOutExactly` | apps/worker/src/cdp-pipe-bridge.ts:273-277 | A call that times out fails as one answered with an error. |
| `CdpAnswers.AttachedExactly` | apps/worker/src/cdp-pipe-bridge.ts:176-184 | An attached client that is still connected has its browser session and owns it. |
| `CdpAnswers.LateAttachDetached` | apps/worker/src/cdp-pipe-bridge.ts:176-184 | For a client gone meanwhile the session is detached at once. |
| `CdpAnswers.FailureEndsBridge` | apps/worker/src/cdp-pipe-bridge.ts:132-166 | A failure empties every table and closes every client; an attach reply without a session is one. |
| `CdpFraming.ChunkIndependence` | apps/worker/src/cdp-pipe-bridge.ts:309-327 | Reading a stream in any chunks leaves the same state and buffer as reading it in one piece. |
| `CdpFraming.FramesOfStream` | apps/worker/src/cdp-pipe-bridge.ts:309-327 | Reading a stream routes exactly its nonempty NUL-separated parts, in order, and fails at the first oversized or invalid one. |
| `CdpFraming.DrainIsProcess` | apps/worker/src/cdp-pipe-bridge.ts:313-323 | The incremental framer equals splitting the whole buffer at NUL and processing the parts. |
| `CdpFraming.JoinSplit` | apps/worker/src/cdp-pipe-bridge.ts:313-323 | Splitting NUL-free parts joined by NUL gives back the parts. |
| `CdpFraming.SplitJoin` | apps/worker/src/cdp-pipe-bridge.ts:313-323 | Joining the parts a stream was split into gives back the stream. |
| `CdpFraming.WriteReadRoundTrip` | apps/worker/src/cdp-pipe-bridge.ts:295-327 | Messages framed as #write frames them, cut into any chunks, are routed as the same messages in the same order. |
| `CdpPipeBridge.Bridge.Read` | apps/worker/src/cdp-pipe-bridge.ts:309-327 | The buffer and the bridge become what the framing function says for the chunk, in a loop that ends. |
| `CdpPipeBridge.Bridge.ReadFrame` | apps/worker/src/cdp-pipe-bridge.ts:313-323 | One turn of the loop takes one frame, stops short of a separator, or fails, and leaves the rest of the stream to do the same. |
| `CdpPipeBridge.Bridge.Consume` | apps/worker/src/cdp-pipe-bridge.ts:322-347 | An unparsable frame or an unsafe id ends the bridge; a reply or an event is routed. |
| `CdpPipeBridge.Bridge.RouteReply` | apps/worker/src/cdp-pipe-bridge.ts:330-348 | A reply leaves the in-flight table and settles the internal call, or reaches the issuing client under its original id. |
| `CdpPipeBridge.Bridge.Answer` | apps/worker/src/cdp-pipe-bridge.ts:341-345 | The answered id leaves both tables together, and a session in the result becomes the client's. |
| `CdpPipeBridge.Bridge.RouteEvent` | apps/worker/src/cdp-pipe-bridge.ts:350-360 | An event reaches the owner of its session; attached children are owned before it is sent, detached ones released after. |
| `CdpPipeBridge.Bridge.Send` | apps/worker/src/cdp-pipe-bridge.ts:363-375 | A closed client gets nothing, a full socket drops its client, any other send is recorded as delivered. |
| `CdpPipeBridge.Bridge.OnMessage` | apps/worker/src/cdp-pipe-bridge.ts:191-228 | A client message becomes a command under the next serial, or drops the client: invalid, foreign session, duplicate id, capacity. |
| `CdpPipeBridge.Bridge.Accept` | apps/worker/src/cdp-pipe-bridge.ts:168-190 | A new client is attached under the next serial before it counts as connected. |
| `CdpPipeBridge.Bridge.Drop` | apps/worker/src/cdp-pipe-bridge.ts:231-246 | A dropped client leaves every table and its browser session is detached. |
| `CdpPipeBridge.Bridge.ForgetClient` | apps/worker/src/cdp-pipe-bridge.ts:231-244 | All three tables lose every trace of the client. |
| `CdpPipeBridge.Bridge.Detach` | apps/worker/src/cdp-pipe-bridge.ts:248-257 | A detach that cannot be sent ends the bridge. |
| `CdpPipeBridge.Bridge.CallChrome` | apps/worker/src/cdp-pipe-bridge.ts:267-293 | A call takes the next serial and is in flight exactly if it was written. |
| `CdpPipeBridge.Bridge.Write` | apps/worker/src/cdp-pipe-bridge.ts:295-307 | A message is written, refused as too large, or ends the bridge when the queue would overflow. |
| `CdpPipeBridge.Bridge.CloseBridge` | apps/worker/src/cdp-pipe-bridge.ts:132-166 | Closing empties every table and the buffer and marks the connected clients closed. |
| `CdpPipeBridge.Bridge.LearnSession` | apps/worker/src/cdp-pipe-bridge.ts:177-183 | The attach reply gives the client its browser session and, if it is still there, its ownership. |
| `CdpPipeBridge.Bridge.OnTimeout` | apps/worker/src/cdp-pipe-bridge.ts:274-277 | A call that times out leaves the in-flight table and fails its caller. |
| `CdpPipeBridge.Bridge.RunTask` | apps/worker/src/cdp-pipe-bridge.ts:186-190 | The next continuation runs: an attachment, a dropped client or a failure. |
| `ScriptRuntimeModel.SettledExactlyOnce` | packages/navigation-policy/src/script-runtime.ts:16-103 | In every run, every job submitted is queued, running or settled, and in exactly one of these places, once. |
| `ScriptRuntimeModel.RepliesAreFaithful` | packages/navigation-policy/src/script-runtime.ts:63-72 | A worker's reply settles the job last posted to that same worker, never another. |
| `ScriptRuntimeModel.ReplySettlesJobInProgress` | packages/navigation-policy/src/script-runtime.ts:63-72 | In every reachable state a worker's message settles something exactly if it is a reply of the present worker, and then the job in progress, which is the one it replies to; a message that a worker is ready, or of a worker let go, settles nothing. |
| `ScriptRuntimeModel.FirstInFirstOut` | packages/navigation-policy/src/script-runtime.ts:75-77 | Jobs are posted in the order they were submitted, ahead of every job still queued, and the queue never exceeds 16. |
| `ScriptRuntimeModel.NeverStuck` | packages/navigation-policy/src/script-runtime.ts:26-36 | After every event a nonempty queue has a running job, a termination under way or a worker starting, and the watchdog is armed exactly while a job runs or a worker starts. |
| `ScriptRuntimeModel.IdleAlarm` | packages/navigation-policy/src/script-runtime.ts:33-39 | stop does not clear the idle timer: its alarm settles jobs exactly when jobs wait behind a worker that is still being terminated. |
| `ScriptRuntimeModel.IdleAlarmReachable` | packages/navigation-policy/src/script-runtime.ts:16-30 | Such a state is reached: an idle worker dies and a job arrives before its termination ends. |
| `ScriptRuntimeModel.RefusedExactly` | packages/navigation-policy/src/script-runtime.ts:80-90 | In every reachable state a job is refused exactly if sixteen wait, and nothing else changes; otherwise nothing is settled, and it is posted to an idle worker or waits behind all others. |
| `ScriptRuntimeModel.AlarmSettlesAll` | packages/navigation-policy/src/script-runtime.ts:36-56 | A watchdog settles the running job and those that wait as timed out, in order, the idle alarm as failed, and a termination begins. |
| `ScriptRuntimeModel.DeathFailsAll` | packages/navigation-policy/src/script-runtime.ts:57-62 | The death of the present worker fails them all; the death of another changes nothing. |
| `ScriptRuntimeModel.ShutdownFailsAll` | packages/navigation-policy/src/script-runtime.ts:93-103 | Shutting down fails them all, those that wait first. |
| `ScriptRuntimeModel.TerminationMovesOn` | packages/navigation-policy/src/script-runtime.ts:26-31 | The end of a termination settles nothing and lets the first job that waits have a new worker, watched while it starts. |
| `ScriptRuntimeModel.WorkerTakesNext` | packages/navigation-policy/src/script-runtime.ts:63-78 | A worker that is ready or has replied takes the job that has waited longest, or has its idle alarm armed. |
| `ScriptRuntimeModel.StepKeeps` | packages/navigation-policy/src/script-runtime.ts:16-103 | Every event keeps the queue bound, the order, the alarms and the attribution of replies. |
| `ScriptRuntimeModel.StepConserves` | packages/navigation-policy/src/script-runtime.ts:16-103 | No event loses or duplicates a job. |
| `ScriptRuntime.NavigationScriptRuntime.Stop` | packages/navigation-policy/src/script-runtime.ts:16-30 | The running job, then the queued ones, are settled with the reason, and a termination is under way. |
| `ScriptRuntime.NavigationScriptRuntime.Dispatch` | packages/navigation-policy/src/script-runtime.ts:31-79 | Arms the idle alarm, creates the worker or posts the next job, and otherwise does nothing. |
| `ScriptRuntime.NavigationScriptRuntime.RunPolicyScript` | packages/navigation-policy/src/script-runtime.ts:80-90 | A job is refused as busy at 16 queued, otherwise queued and dispatched. |
| `ScriptRuntime.NavigationScriptRuntime.OnMessage` | packages/navigation-policy/src/script-runtime.ts:63-72 | A message of the present worker makes it ready or settles the current job; of another, nothing. |
| `ScriptRuntime.NavigationScriptRuntime.OnDeath` | packages/navigation-policy/src/script-runtime.ts:57-62 | The death of the present worker settles everything as failed; of another, nothing. |
| `ScriptRuntime.NavigationScriptRuntime.OnTimer` | packages/navigation-policy/src/script-runtime.ts:36-56 | Watchdogs settle everything as timed out, the idle alarm stops the worker. |
| `ScriptRuntime.NavigationScriptRuntime.OnTerminated` | packages/navigation-policy/src/script-runtime.ts:26-29 | The termination ends and the queue moves on. |
| `ScriptRuntime.NavigationScriptRuntime.Close` | packages/navigation-policy/src/script-runtime.ts:93-103 | Shutdown settles the queue, then the running job, and lets the worker go. |
| `StorageObservation.ContainsIsPrefix` | apps/worker/src/storage-observation.ts:27-30 | A path is contained in another exactly if the other is a prefix of its components. |
| `StorageObservation.RootsAreIndependent` | apps/worker/src/storage-observation.ts:33-38 | The roots kept are distinct, none lies inside another, and together they cover every root given. |
| `StorageScan.ScanOfMovingTree` | apps/worker/src/storage-observation.ts:41-62 | However the tree changes during it, a scan that ends reports only files under the roots, with sizes they had, and misses none that was there throughout. |
| `StorageScan.ScanOfStillTree` | apps/worker/src/storage-observation.ts:41-62 | A scan of a tree that does not change ends with exactly the files under the roots. |
| `StorageScan.LooksOnce` | apps/worker/src/storage-observation.ts:33-62 | From independent roots no path is looked at twice, even if the tree changes, so no file is counted twice. |
| `StorageScan.ReadStorageFiles` | apps/worker/src/storage-observation.ts:41-62 | The stack loop does this walk: it pops a path, keeps the size of a file, pushes the entries of a directory, passes over what is gone, and gives nothing if it is cut short. |
| `StorageObservation.RootsLoseNothing` | apps/worker/src/storage-observation.ts:33-62 | The files under the independent roots are the files under all the given roots. |
| `StorageUsage.UsageFormula` | apps/worker/src/storage-protection.ts:246-262 | With disjoint reservation paths, usage is the observed bytes plus what each reservation still lacks. |
| `StorageUsage.UsageInAnyOrder` | apps/worker/src/storage-protection.ts:252-259 | With disjoint paths the order of the reservations does not matter. |
| `StorageUsage.OrderMattersExactly` | apps/worker/src/storage-protection.ts:246-262 | Two neighbouring reservations count the same in either order exactly if they take in equally many of the bytes they share; only bytes not taken by earlier ones matter. |
| `StorageUsage.OverlapDependsOnOrder` | apps/worker/src/storage-protection.ts:252-259 | An instance: the same two reservations count 10 or 15. |
| `StorageUsage.ShrinkingNeverRaises` | apps/worker/src/storage-protection.ts:411-412 | Re-reserving a key for no more bytes never raises usage, which is why it needs no quota check. |
| `StorageQuota.AdmittedWithinQuota` | apps/worker/src/storage-protection.ts:394-418 | An admitted reservation leaves usage within the quota or no higher than before, for every quota below 2^53 - 1. |
| `StorageQuota.QuotaBelowCapIsExact` | apps/worker/src/storage-protection.ts:394-418 | Below 2^53 - 1 a larger or new reservation is admitted exactly if usage with it is within the quota. |
| `StorageQuota.QuotaAtCapRefusesNoSize` | apps/worker/src/storage-protection.ts:246-262 | From 2^53 - 1 on, no size is refused: usage is capped there. |
| `StorageQuota.NewTransferExactly` | apps/worker/src/storage-protection.ts:365-418 | A new transfer is granted exactly if its bytes and paths are valid, the disk is known and not critical, there is an observation, usage is below the Worker's quota and the Profile's bytes below its own, and usage with it is within the Worker's quota; otherwise the first of these in order is the refusal, and nothing changes. |
| `StorageQuota.GrantedOnGoodDisk` | apps/worker/src/storage-protection.ts:377-382 | None is granted on a critical or unknown disk. |
| `StorageQuota.KnownTransferExactly` | apps/worker/src/storage-protection.ts:394-418 | A transfer that has its reservation is given another size exactly if that is valid, there is an observation, and it asks for no more or usage with it is within the quota. |
| `StorageQuota.ReleasedExactly` | apps/worker/src/storage-protection.ts:446-451 | After a release its paths count with what was found there, others as before, and its key has no reservation. |
| `StorageRuns.StaysSoundExactly` | apps/worker/src/storage-protection.ts:394-452 | Call the accounting sound if the disk with what is still reserved is within the quota, the observation counts no less than the disk for each reservation and on each path outside, and a scan under way will end that way. Over any run of writes inside reservations, reservations, retentions, and scans and releases that take their time, it is sound at every moment exactly if every step is careful. |
| `StorageRuns.QuotaHolds` | apps/worker/src/storage-protection.ts:394-452 | So after a careful run the disk is within the quota, and the observation counts no less than it. |
| `StorageRuns.StepExact` | apps/worker/src/storage-protection.ts:394-452 | One step keeps the accounting sound exactly if it is careful. |
| `StorageRuns.DiskStaysWithin` | apps/worker/src/storage-protection.ts:394-452 | No step from sound accounting, careless or not, takes the disk over the quota by itself; what a careless one costs is an observation that counts too little. |
| `StorageRuns.ReserveExact` | apps/worker/src/storage-protection.ts:394-418 | An accepted reservation keeps the accounting sound exactly if the bytes on its paths fit it or as many were observed there, and a scan under way has seen them if they do not fit. |
| `StorageRuns.RetainExact` | apps/worker/src/storage-protection.ts:421-425 | Retaining a file under the size it has keeps the accounting sound under the same condition. |
| `StorageRuns.ReleaseExact` | apps/worker/src/storage-protection.ts:432-452 | The end of a release keeps the accounting sound exactly if each of its paths holds no more than lstat found, and paths added since no more than was observed. |
| `StorageRuns.QuietReleasesAreCareful` | apps/worker/src/storage-protection.ts:432-452 | So it does whenever nothing is written on, reserved under or retained under its key between its call and its end. |
| `StorageRuns.FirstReservationIsCounted` | apps/worker/src/storage-protection.ts:394-418 | The first reservation of a key, on paths of its own, is always careful. |
| `StorageRuns.GrowingIsCounted` | apps/worker/src/storage-protection.ts:394-418 | So is asking for no less than before. |
| `StorageRuns.WriteNeverChangesUsage` | apps/worker/src/storage-protection.ts:246-262 | Writing inside a reservation never changes usage. |
| `StorageRuns.WriteKeeps` | apps/worker/src/storage-protection.ts:246-262 | Writing inside a reservation keeps the accounting sound, observed or not. |
| `StorageRuns.ScanKeeps` | apps/worker/src/storage-protection.ts:178-243 | A scan keeps the accounting sound however it interleaves with the rest. |
| `StorageBalance.ScanEndsHonestExactly` | apps/worker/src/storage-observation.ts:41-62 | What sound accounting asks of a scan under way is exactly that it would count no less than the disk whatever it looked at again. |
| `StorageBalance.ScanCountsMoreExactly` | apps/worker/src/storage-observation.ts:41-62 | In a careful run a scan counts more than lies on disk exactly if, for some reservation, it has seen more than both its bytes and what lies on its paths. |
| `StorageBalance.LargestGrantIsSafeExactly` | apps/worker/src/storage-protection.ts:394-418 | The largest grant a fresh key can be given keeps the disk within the quota exactly if the observation counts no less than the disk. |
| `StorageBalance.ReReserveExact` | apps/worker/src/storage-protection.ts:394-418 | Re-reserving a key keeps the observation honest exactly if what it then counts too little for that key is made up for elsewhere. |
| `StorageBalance.ShrinkExact` | apps/worker/src/storage-protection.ts:411-412 | While nothing is miscounted, a reservation may shrink exactly to the bytes on its paths, or to anything if those were observed. |
| `StorageBalance.ReleaseHonestExactly` | apps/worker/src/storage-protection.ts:432-452 | The end of a release keeps the observation honest exactly if what it then counts too little on the key's paths is made up for elsewhere. |
| `StorageBalance.LaterReservationIsLost` | apps/worker/src/storage-protection.ts:432-452 | A reservation made under a key while it is being released is gone when the release ends. |
| `StorageCounterexamples.ShrinkingBelowTheDisk` | apps/worker/src/storage-protection.ts:394-418 | From an empty ledger: a reservation shrunk below its bytes on disk lets 20 bytes be counted under a quota of 10. |
| `StorageCounterexamples.StaleRelease` | apps/worker/src/storage-protection.ts:432-452 | From an empty ledger: a write between lstat and the end of a release does the same. |
| `StorageCounterexamples.ScanMayCountTwice` | apps/worker/src/storage-observation.ts:41-62 | An instance of a scan that counts more: a file renamed meanwhile is counted under both names. |
| `StoragePaths.ReservationsNeverOverlap` | apps/worker/src/session-storage.ts:85-90 | In every run of uploads and downloads with fresh ids, no two reservations share a path, and releases under way share none with other keys. |
| `StoragePaths.TransfersStaySoundExactly` | apps/worker/src/storage-protection.ts:394-452 | From the start of the Worker, with nothing assumed of paths but fresh ids: the accounting of uploads and downloads that write inside their reservations is sound at every moment exactly if every step is careful, and then the disk is within the quota. |
| `StoragePaths.TransfersHaveOwnPaths` | apps/worker/src/retained-downloads.ts:160-166 | What a transfer reserves or retains is on paths of its own. |
| `StoragePaths.KeysDiffer` | apps/worker/src/retained-downloads.ts:160-166 | Different transfers have different keys. |
| `StoragePaths.AreasApart` | apps/worker/src/retained-downloads.ts:204-211 | Different transfers have no path in common, in spool, staging and store. |
| `StorageProtectionLedger.StorageProtection.MeasureUsage` | apps/worker/src/storage-protection.ts:246-262 | The loops compute usage: the capped charge of files and reservations, or nothing without an observation. |
| `StorageProtectionLedger.StorageProtection.MeasureProfile` | apps/worker/src/storage-protection.ts:311-333 | The sizes under the Profile's directory are added. |
| `StorageProtectionLedger.StorageProtection.AssertAdmission` | apps/worker/src/storage-protection.ts:365-392 | Refuses, in order, an unknown state, a critical disk, an exhausted Worker quota, an exhausted Profile quota. |
| `StorageProtectionLedger.StorageProtection.ReserveTransfer` | apps/worker/src/storage-protection.ts:394-418 | The reservation is made or refused as specified, and a refusal changes nothing. |
| `StorageProtectionLedger.StorageProtection.RetainFiles` | apps/worker/src/storage-protection.ts:421-425 | The key keeps its paths, gains the new ones and takes the new size. |
| `StorageProtectionLedger.StorageProtection.BeginRelease` | apps/worker/src/storage-protection.ts:432-434 | The paths to look up are those the key has when the release is called. |
| `StorageProtectionLedger.StorageProtection.EndRelease` | apps/worker/src/storage-protection.ts:446-451 | Sizes found replace the observed ones, vanished paths leave it, and the key is gone with whatever it holds by then. |
| `StorageProtectionLedger.StorageProtection.Observe` | apps/worker/src/storage-protection.ts:238-241 | The end of a scan replaces the observation, or takes it away if the scan failed. |
| `StoragePolicies.HighestWins` | apps/worker/src/storage-protection.ts:118-128 | Whatever the order and repetition, non-conflicting calls leave the highest version offered, for the Worker and for every Profile. |
| `StoragePolicies.OrderDoesNotMatter` | apps/worker/src/storage-protection.ts:118-128 | Any two sequences of the same non-conflicting calls give the same policies. |
| `StoragePolicies.ConflictChangesNothing` | apps/worker/src/storage-protection.ts:118-128 | A call is stale exactly when one of its two policies has the version in force with another quota, and then neither changes. |
| `StoragePolicies.WorkerVersionNeverLowers` | apps/worker/src/storage-protection.ts:110-175 | Over any run of calls, failures half-way, forgotten Profiles and restarts, the Worker policy version never goes down, nor does its quota change under one version. |
| `StoragePolicies.ProfileVersionNeverLowers` | apps/worker/src/storage-protection.ts:110-175 | The same for a Profile that is not forgotten. |
| `StoragePolicies.FileStepsBackExactly` | apps/worker/src/storage-protection.ts:118-159 | A call takes the file to an older Worker version exactly if it is renamed and both what the Worker holds and what it is given are older than the file. |
| `StoragePolicies.NewVersionStepsBackExactly` | apps/worker/src/storage-protection.ts:118-159 | For a version newer than the one held: exactly if it lies between that and the file. |
| `StoragePolicies.ForgettingStepsBackExactly` | apps/worker/src/storage-protection.ts:162-175 | Forgetting a Profile does so exactly if the Worker holds an older version than the file. |
| `StoragePolicies.BehindTheFileExactly` | apps/worker/src/storage-protection.ts:144-159 | And that comes about exactly by a call that fails behind its rename. |
| `StoragePolicies.FileMayStepBack` | apps/worker/src/storage-protection.ts:144-159 | Such a run: a version whose call failed after the rename is overwritten by a lower one. |
| `StoragePolicies.AppliedExactly` | apps/worker/src/storage-protection.ts:110-142 | What a call is answered, and what memory and file hold after it: closed, stale, nothing to do, or the higher versions, held exactly if writing succeeds to the end. |
| `StoragePolicies.ForgottenExactly` | apps/worker/src/storage-protection.ts:162-175 | The same for forgetting a Profile. |
| `StoragePolicies.ClosedUntilRestart` | apps/worker/src/storage-protection.ts:110-175 | From closing to a restart nothing changes; a restart holds what the file has. |
| `StoragePolicies.PolicyStore.ApplyPolicies` | apps/worker/src/storage-protection.ts:110-142 | Memory changes only after the file; a stale, closed or failed call leaves memory as it was. |
| `StoragePolicies.PolicyStore.ForgetProfilePolicy` | apps/worker/src/storage-protection.ts:162-175 | A known Profile leaves the file, then memory. |
| `StoragePolicies.PolicyStore.PersistPolicies` | apps/worker/src/storage-protection.ts:144-159 | The file is the old one or the new one, and success means the new one. |
| `StoragePolicies.PolicyStore.constructor` | apps/worker/src/storage-protection.ts:88-104 | A restart takes up the file. |
| `ProfileReports.NoDuplicates` | apps/worker/src/storage-protection.ts:339-342 | A batch holds min(100, n) Profiles, none twice. |
| `ProfileReports.RoundTripCoversAll` | apps/worker/src/storage-protection.ts:336-345 | Any ceil(n / 100) consecutive calls report every Profile, from any cursor. |
| `ProfileReports.EveryProfileIsReported` | apps/worker/src/storage-protection.ts:336-345 | The call and the place at which each Profile is reported. |
| `ProfileReports.BatchExactly` | apps/worker/src/storage-protection.ts:336-345 | A batch is the Profiles from the cursor on, and the next one starts where it ends. |
| `ProfileReports.ProfileReporter.ProfileUsages` | apps/worker/src/storage-protection.ts:336-345 | The loop reports the batch at the cursor and moves the cursor past it. |
| `StoredUpload.FileIsAcceptedChunks` | apps/worker/src/session-storage.ts:183-230 | After any chunks, partial writes, failures and retries, the first #offset bytes of the file are the accepted chunks, and the file is no larger than declared. |
| `StoredUpload.CommittedFile` | apps/worker/src/session-storage.ts:203-222 | A committed upload is exactly its accepted chunks, of the declared size. |
| `StoredUpload.WrittenExactly` | apps/worker/src/session-storage.ts:183-201 | A chunk is taken exactly if the file is open, it starts where the last one ended and ends no later than the declared size; byte by byte, what landed is on disk. |
| `StoredUpload.EndedExactly` | apps/worker/src/session-storage.ts:203-230 | A commit succeeds exactly on an open file with all its bytes that can be closed, an abort unless closing fails. |
| `StoredUpload.WholeUploadCommits` | apps/worker/src/session-storage.ts:183-222 | Any bytes, in one chunk or two, that meet no failure become the committed file. |
| `StoredUpload.FileHandle.WriteAll` | apps/worker/src/session-storage.ts:188-198 | The write loop puts a prefix of the chunk at its position, all of it unless it fails. |
| `StoredUpload.StoredReservation.Write` | apps/worker/src/session-storage.ts:183-201 | A chunk is refused unless the file is open, the offset is next and it fits; the offset moves only if all of it was written. |
| `StoredUpload.StoredReservation.Finish` | apps/worker/src/session-storage.ts:203-222 | Commit succeeds only at the declared size and once the file is closed. |
| `StoredUpload.StoredReservation.Discard` | apps/worker/src/session-storage.ts:224-230 | Abort closes an open file and cannot be undone; a failed close leaves it open. |
| `SafeFilenames.SafeFilename` | apps/worker/src/session-storage.ts:247-258 | The name is always one path component of at most 240 bytes: the longest prefix of the cleaned name that fits, or "file" for no name at all. |
| `SafeFilenames.CharactersExactly` | apps/worker/src/session-storage.ts:247-253 | Control characters, slashes and backslashes become underscores, all others stay; the bytes a character takes in UTF-8. |
| `SafeFilenames.CleanedExactly` | apps/worker/src/session-storage.ts:249 | White space at both ends is cut off, and nothing else. |
| `SafeFilenames.BlankExactly` | apps/worker/src/session-storage.ts:249 | The characters that count as white space. |
| `SafeFilenames.Truncate` | apps/worker/src/session-storage.ts:251-256 | The loop keeps the longest prefix that fits. |
| `SessionStorageLedger.ReservedCoversDeclared` | apps/worker/src/session-storage.ts:84-163 | In every interleaving the reserved bytes cover every open under way and every live file, stay within the limit, and are zero after a completed cleanup. |
| `SessionStorageLedger.ReservedIsDeclaredAndLeaked` | apps/worker/src/session-storage.ts:110-163 | They exceed those bytes by exactly what failed opens left behind since the last completed cleanup. |
| `SessionStorageLedger.ReservedIsDeclared` | apps/worker/src/session-storage.ts:110-140 | So they are exactly those bytes if and only if nothing was left behind. |
| `SessionStorageLedger.FailedRemovalStaysReserved` | apps/worker/src/session-storage.ts:133-138 | An instance: the bytes of an open that failed and could not be removed stay reserved. |
| `SessionStorageLedger.CleanedUpForGood` | apps/worker/src/session-storage.ts:142-163 | After a completed cleanup nothing changes any more. |
| `SessionStorageLedger.ReservedUploadExactly` | apps/worker/src/session-storage.ts:72-104 | An upload is reserved exactly if the storage is open, totals and size are valid, all is within the limit and the Worker-wide ledger admits it; otherwise the first check that fails is the reason. |
| `SessionStorageLedger.EndedExactly` | apps/worker/src/session-storage.ts:110-140 | Bytes come back exactly when what was on disk is gone, and once. |
| `SessionStorageLedger.CleanupGoesOn` | apps/worker/src/session-storage.ts:142-163 | Every step of a cleanup, and where a failure takes it. |
| `SessionStorageLedger.CleanupCanComplete` | apps/worker/src/session-storage.ts:142-163 | After any failed cleanups, one whose steps work completes and leaves nothing reserved. |
| `SessionStorageLedger.StepKeeps` | apps/worker/src/session-storage.ts:72-163 | Every event keeps the ledger, including repeated aborts and retried cleanups, and moves the reserved bytes with the declared ones but for what it leaves behind. |
| `SessionStorageLedger.SessionStorage.ReserveFile` | apps/worker/src/session-storage.ts:72-104 | Bytes are reserved before anything waits, or the request is refused in the order of the checks. |
| `SessionStorageLedger.SessionStorage.FinishOpen` | apps/worker/src/session-storage.ts:110-140 | An open becomes a live file, or gives its bytes back if what it created was removed. |
| `SessionStorageLedger.SessionStorage.RemoveFile` | apps/worker/src/session-storage.ts:124-129 | Only the first successful removal gives the bytes back. |
| `SessionStorageLedger.SessionStorage.CleanupSession` | apps/worker/src/session-storage.ts:142-150 | Closes the storage and starts a cleanup unless one runs. |
| `SessionStorageLedger.SessionStorage.ContinueCleanup` | apps/worker/src/session-storage.ts:152-163 | Opens, then aborts, then the directory; a failure lets cleanup be called again, success resets the ledger. |
| `RetainedDownloadsProofs.RunKeeps` | apps/worker/src/retained-downloads.ts:251-400 | In every interleaving, failing writes included, an available download still has its bytes and nobody but its holder can have it claimed. |
| `RetainedDownloadsProofs.StepKeeps` | apps/worker/src/retained-downloads.ts:128-400 | Every event keeps the invariant of files, leases, queue and the running operation. |
| `RetainedDownloadsOutcomes.FinalStatusIsFinal` | apps/worker/src/retained-downloads.ts:317-375 | A download that was claimed or has expired stays so until it is forgotten, and never comes back. |
| `RetainedDownloadsOutcomes.DeadlineOnlyMovesForward` | apps/worker/src/retained-downloads.ts:251-268 | expiresAt never increases. |
| `RetainedDownloadsOutcomes.NoFinishAfterExpiryBegan` | apps/worker/src/retained-downloads.ts:299-314 | Once expiry has begun to write a download, no finish of any lease on it is ever accepted. |
| `RetainedDownloadsOutcomes.PromiseExact` | apps/worker/src/retained-downloads.ts:315-361 | One event breaks what an accepted finish promises exactly if it is the failure to write that lease's own claim. |
| `RetainedDownloadsOutcomes.FinishIsKeptExactly` | apps/worker/src/retained-downloads.ts:299-361 | Over any run an accepted finish is kept at every moment exactly if its own claim never fails to be written, whatever happens to the claims of other leases. |
| `RetainedDownloadsOutcomes.AcceptedFinishIsKept` | apps/worker/src/retained-downloads.ts:299-361 | Then its file is available until the claim is written, and claimed at the moment of the finish from then on. |
| `RetainedDownloadsOutcomes.AtMostOneFinish` | apps/worker/src/retained-downloads.ts:271-331 | The first lease to finish a download stays the only one, unless its own claim cannot be written. |
| `RetainedDownloadsOutcomes.AcceptedIsPromised` | apps/worker/src/retained-downloads.ts:315-327 | Accepting a finish queues its claim, makes that promise and, if it is the first, makes it the only one. |
| `RetainedDownloadsOutcomes.FailedClaimMayExpire` | apps/worker/src/retained-downloads.ts:317-327 | An instance: a finish is accepted, its claim is lost and the download expires. |
| `RetainedDownloads.WorkerRetainedDownloads.ReservedBytesOf` | apps/worker/src/retained-downloads.ts:113-126 | The loops add what the files kept and the reservations of a Session hold. |
| `RetainedDownloads.WorkerRetainedDownloads.ReserveSink` | apps/worker/src/retained-downloads.ts:140-179 | Reserves under the quota shared with uploads, replacing an earlier reservation of the same download, or changes nothing. |
| `RetainedDownloads.WorkerRetainedDownloads.AcquireLease` | apps/worker/src/retained-downloads.ts:271-287 | One lease at a time, on an available file of the right Session that is not due. |
| `RetainedDownloads.WorkerRetainedDownloads.FinishTransfer` | apps/worker/src/retained-downloads.ts:299-328 | Accepts or refuses before anything waits; a refused lease is let go. |
| `RetainedDownloads.WorkerRetainedDownloads.ReleaseBytes` | apps/worker/src/retained-downloads.ts:288-293 | A lease that has not finished is aborted and let go, its own place only. |
| `RetainedDownloads.WorkerRetainedDownloads.ScheduleDeadline` | apps/worker/src/retained-downloads.ts:333-346 | A lease still open is aborted once its file is due. |
| `RetainedDownloads.WorkerRetainedDownloads.EndFile` | apps/worker/src/retained-downloads.ts:253-266 | A file of the Session that has not ended yet is ended and due no later than before. |
| `RetainedDownloads.WorkerRetainedDownloads.ExpireFile` | apps/worker/src/retained-downloads.ts:350-356 | A due file is taken from its holder before it is written; a finished one is left to its claim. |
| `RetainedDownloads.WorkerRetainedDownloads.DeleteBytesIfGone` | apps/worker/src/retained-downloads.ts:357-358 | Only a file no longer available loses its bytes. |
| `RetainedDownloads.WorkerRetainedDownloads.PersistManifest` | apps/worker/src/retained-downloads.ts:377-384 | The file in memory follows its manifest, and its holder's deadline with it. |
| `RetainedDownloads.WorkerRetainedDownloads.StartOperation` | apps/worker/src/retained-downloads.ts:393-401 | The next queued operation runs up to its first wait. |
| `RetainedDownloads.WorkerRetainedDownloads.ContinueOperation` | apps/worker/src/retained-downloads.ts:180-391 | The running operation goes on as specified when what it waited for succeeds or fails. |
| `RetainedDownloads.WorkerRetainedDownloads.LetLeaseGo` | apps/worker/src/retained-downloads.ts:325-327 | A claim ends, well or badly, by giving up its lease. |
| `RetainedDownloadsAnswers.AcquiredExactly` | apps/worker/src/retained-downloads.ts:271-287 | A lease is given exactly on a download that is there, available, not due, held by nobody, and the Session's own. |
| `RetainedDownloadsAnswers.LeasesAreOwn` | apps/worker/src/retained-downloads.ts:271-287 | In every run every lease is on a download of the Session that acquired it. |
| `RetainedDownloadsAnswers.FinishedExactly` | apps/worker/src/retained-downloads.ts:299-328 | A finish is accepted exactly if the lease still holds its download, was neither aborted nor finished, and the download is not due. |
| `RetainedDownloadsAnswers.LetGoExactly` | apps/worker/src/retained-downloads.ts:288-293 | Releasing lets go of a lease that has not finished, and of nothing else. |
| `RetainedDownloadsAnswers.DeadlineFiresExactly` | apps/worker/src/retained-downloads.ts:333-346 | A lease is aborted by its timer exactly if it has not finished and its download is due. |
| `RetainedDownloadsAnswers.EndedExactly` | apps/worker/src/retained-downloads.ts:251-268 | A Session's end leaves what is due earlier, and makes the rest of its downloads due afterSession later. |
| `RetainedDownloadsAnswers.DueExactly` | apps/worker/src/retained-downloads.ts:251-268 | Over any run a download is due exactly at its first deadline, or afterSession after its Session ended if that is earlier: never before, never later. |
| `RetainedDownloadsAnswers.ExpiredExactly` | apps/worker/src/retained-downloads.ts:348-358 | Expiry takes exactly the available downloads that are due and not finished, aborting their holders, and deletes the bytes of those already gone. |
| `RetainedDownloadsAnswers.ExpiryGoesOn` | apps/worker/src/retained-downloads.ts:350-384 | The manifest is written before the bytes go, and a failure ends the expiry. |
| `RetainedDownloadsAnswers.StartedExactly` | apps/worker/src/retained-downloads.ts:180-391 | Where each queued operation waits first, if at all. |
| `RetainedDownloadsAnswers.ClaimGoesOn` | apps/worker/src/retained-downloads.ts:315-327 | A claim that is written deletes the bytes; it ends by giving up its lease, failed or not. |
| `RetainedDownloadsAnswers.CommitGoesOn` | apps/worker/src/retained-downloads.ts:180-225 | A commit puts an available download in the store, due after the completed retention, in place of its reservation. |
| `RetainedDownloadsAnswers.ForgetsExactly` | apps/worker/src/retained-downloads.ts:226-234 | An abort forgets the reservation, an acknowledgement the download, exactly if they succeed. |
| `RetainedDownloadsAnswers.ReservedExactly` | apps/worker/src/retained-downloads.ts:140-179 | A download is reserved exactly if sizes are valid, the Worker-wide ledger admits it and the Session's bytes, with it in place of its earlier reservation, are within the limit. |
| `RetainedDownloadsAnswers.CallsQueueUp` | apps/worker/src/retained-downloads.ts:393-401 | Calls wait in line, an expiry with the time of its call. |
| `RetainedDownloads.WorkerRetainedDownloads.constructor` | apps/worker/src/retained-downloads.ts:79-110 | A store opened on the manifests found keeps the bytes of every available file and satisfies the invariant. |
| `SessionQuota.LimitHoldsExactly` | apps/worker/src/retained-downloads.ts:140-225 | In every interleaving of uploads and downloads the two reserved totals together stay within maxTemporaryBytes at every moment exactly if every commit that ends has a file larger than its reservation by no more than what is left. |
| `SessionQuota.StepExact` | apps/worker/src/retained-downloads.ts:140-225 | The same for one event; none but the end of a commit can pass the limit. |
| `SessionQuota.LimitHolds` | apps/worker/src/retained-downloads.ts:140-225 | So it holds whenever a commit that ends finds its reservation no smaller than its file, whatever happened to it meanwhile. |
| `SessionQuota.CommitKeepsTotal` | apps/worker/src/retained-downloads.ts:180-225 | A commit keeps the total exactly when the reservation still has the size of the file, and does not raise it exactly when it has not become smaller. |
| `SessionQuota.ShrinkDuringCommitOvershoots` | apps/worker/src/retained-downloads.ts:140-225 | Otherwise it overshoots: shrinking the reservation of a running commit and spending what is freed counts its bytes twice. |
| `SessionQuota.LimitCanBeBroken` | apps/worker/src/retained-downloads.ts:140-225 | From an empty Session, a run of calls that ends with 20 bytes under a limit of 10. |
| `LedgersAgree.DownloadKeysAgree` | apps/worker/src/retained-downloads.ts:140-391 | In every run the Worker-wide ledger holds one reservation for each download stored or reserved, and no other. |
| `LedgersAgree.DownloadBytesAgreeExactly` | apps/worker/src/retained-downloads.ts:140-391 | Their sizes agree at every moment exactly if no reservation has another size than its commit began with when that commit goes on or ends. |
| `LedgersAgree.DownloadsStepExact` | apps/worker/src/retained-downloads.ts:140-391 | The same for every event. |
| `LedgersAgree.ResizedCommit` | apps/worker/src/retained-downloads.ts:140-225 | A download re-reserved during its commit ends stored at 10 bytes, and reserved at 3. |
| `LedgersAgree.UploadLedgersAgree` | apps/worker/src/session-storage.ts:72-163 | In every run the Worker-wide ledger holds each open under way and each live upload at its size, and in all exactly the bytes the Session has reserved, less what an unfinished cleanup has released. |
| `DownloadReports.AcceptedExactly` | apps/worker/src/download-control.ts:97-111 | An acknowledgement is accepted exactly when it lists the report's terminal downloads, in some order, each once. |
| `DownloadReports.Report` | apps/worker/src/download-control.ts:51-71 | Batches of 100 cut the list in order; only terminal downloads are forgotten, none twice; the report stops at the first batch not settled or before the first one it is cancelled at, and a complete one has sent all and forgotten every terminal one. |
| `DownloadReports.SentExactly` | apps/worker/src/download-control.ts:51-60 | Each batch sent is the next hundred downloads, or those that are left. |
| `DownloadReports.Settle` | apps/worker/src/download-control.ts:68-69 | One batch is settled exactly if its acknowledgement matches and every removal works. |
| `DownloadReports.AcknowledgedStaysTerminal` | apps/worker/src/retained-downloads.ts:364-375 | What was reported as terminal is still so, or gone, whenever it is acknowledged: the store never refuses it. |
| `SessionRecycling.RememberedThen` | apps/worker/src/session-recycling.ts:28-49 | The five times kept are what the whole history amounts to, after every event: streaks that start with the first failure or disconnect, and the last input, frame and continuation. |
| `SessionRecycling.SessionClock.Next` | apps/worker/src/session-recycling.ts:51-84 | next is the least deadline of all conditions recomputed from the whole history, hard limits first at equal times, or none. |
| `SessionRecycling.NextIsUnique` | apps/worker/src/session-recycling.ts:51-84 | There is only one such answer. |
| `SessionRecycling.LivelyNeverBringsForward` | apps/worker/src/session-recycling.ts:28-49 | While time goes forward, no continuation, input, frame, reconnection or recovery brings recycling forward. |
| `SessionRecycling.ContinueRespectsHardLimits` | apps/worker/src/session-recycling.ts:46-49 | After a continuation recycling is no later than any hard limit, which stays where it was. |
| `SessionRecycling.FirstDeadlines` | apps/worker/src/session-recycling.ts:16-26 | What each limit counts from in a new Session. |
| `SessionRecycling.IdleDeadlines` | apps/worker/src/session-recycling.ts:33-49 | Input and continuations put off both idle limits, a changed frame that of frames, each to its timeout from now; the hard limits stay. |
| `SessionRecycling.StreakDeadlines` | apps/worker/src/session-recycling.ts:28-44 | A Viewer that goes, or a proxy that fails, starts its limit once; coming back clears it; no other limit moves. |
| `SessionRecycling.NextExactly` | apps/worker/src/session-recycling.ts:51-84 | next is nothing if recycling is off or no limit applies, and else the earliest deadline, at equal times in the order of the limits, with its countdown, continuable exactly for the idle limits. |
| `SessionRecycling.SessionClock.ContinueSession` | apps/worker/src/tab-sessions.ts:482-490 | A continuation is accepted exactly when a soft limit is next and not reached yet, and changes nothing otherwise. |
| `SessionRecycling.SessionClock.constructor` | apps/worker/src/session-recycling.ts:16-26 | A new Session counts as disconnected, and idle, from the moment it is ready. |
| `SessionRecycling.SessionClock.ViewerConnected` | apps/worker/src/session-recycling.ts:28-31 | Keeps the clock equal to the history when the Viewer comes or goes. |
| `SessionRecycling.SessionClock.InputReceived` | apps/worker/src/session-recycling.ts:33-35 | The same for input. |
| `SessionRecycling.SessionClock.FrameChanged` | apps/worker/src/session-recycling.ts:37-39 | The same for a changed frame. |
| `SessionRecycling.SessionClock.ProxyHealthy` | apps/worker/src/session-recycling.ts:41-44 | The same for the proxy. |
| `TabSessionsModel.CreatedAtMostOnce` | apps/worker/src/tab-sessions.ts:207-283 | However often and however late it is delivered, one creation command creates at most one Session, though its records are pruned. |
| `TabSessionsModel.CloseBeforeCreation` | apps/worker/src/tab-sessions.ts:511-520 | A close that arrives before any entry exists blocks, for good, every creation that expires no later than it says. |
| `TabSessionsModel.CleanupBlocksOwnReservation` | apps/worker/src/tab-sessions.ts:584-586 | Cleanup leaves the Session blocked exactly up to its own reservation: a later expiry named by a close is overwritten. |
| `TabSessionsModel.LateCreationAfterClose` | apps/worker/src/tab-sessions.ts:517-586 | So a creation that a close should have blocked succeeds. |
| `TabSessionsModel.BlockedForGood` | apps/worker/src/tab-sessions.ts:770-775 | A block survives every event, pruning included. |
| `TabSessionsModel.RunKeeps` | apps/worker/src/tab-sessions.ts:233-242 | A Profile's Sessions are all normal, or one alone is for maintenance; tickets in progress are newer than the published ones; leases reach at most ten minutes ahead. |
| `TabSessionsModel.GenerationsAndLeasesOnlyGrow` | apps/worker/src/tab-sessions.ts:423-503 | As long as a Session lives its Viewer generation and its lease never go back. |
| `TabSessionsModel.PublishedGenerationIsNew` | apps/worker/src/tab-sessions.ts:437-458 | A Viewer generation changes only when a ticket is published for a live Session, and then it rises. |
| `TabSessionsModel.CreatedExactly` | apps/worker/src/tab-sessions.ts:207-283 | What a creation is answered, the first reason that applies; one that succeeds adds exactly the Session asked for, and no answer forgets another command. |
| `TabSessionsModel.NormalSessionsShare` | apps/worker/src/tab-sessions.ts:233-242 | Sessions that are not for maintenance share a Profile. |
| `TabSessionsModel.RenewedExactly` | apps/worker/src/tab-sessions.ts:494-503 | A lease is moved exactly if the Session is alive and the new one is later and at most ten minutes ahead. |
| `TabSessionsModel.TicketedExactly` | apps/worker/src/tab-sessions.ts:423-462 | A ticket is begun exactly by a Session that is alive, for a newer generation, and published exactly if it is still alive. |
| `TabSessionsModel.ClosedExactly` | apps/worker/src/tab-sessions.ts:505-534 | A close marks its Session as closing and retires it until the latest expiry it has been told. |
| `TabSessionsModel.CleanedUpExactly` | apps/worker/src/tab-sessions.ts:584-586 | Only a closing Session with no ticket under way is cleaned up; then it is gone and retired. |
| `TabSessionsModel.ShutDownExactly` | apps/worker/src/tab-sessions.ts:548-556 | Shutting down closes every Session for good: nothing is created or renewed any more. |
| `TabSessions.WorkerTabSessions.CreateTab` | apps/worker/src/tab-sessions.ts:207-283 | The checks refuse in order, a repeated creation is recognised, a new one is entered and its command remembered. |
| `TabSessions.WorkerTabSessions.CloseTab` | apps/worker/src/tab-sessions.ts:505-534 | The expiry named is kept if it is later, and the entry starts closing. |
| `TabSessions.WorkerTabSessions.FinishCleanup` | apps/worker/src/tab-sessions.ts:584-586 | The entry is gone and retired until its reservation expires. |
| `TabSessions.WorkerTabSessions.RenewTabLease` | apps/worker/src/tab-sessions.ts:494-503 | A live Session takes a valid lease if it is later. |
| `TabSessions.WorkerTabSessions.BeginTicket` | apps/worker/src/tab-sessions.ts:423-453 | A ticket is asked for only by a live Session and for a newer generation. |
| `TabSessions.WorkerTabSessions.FinishTicket` | apps/worker/src/tab-sessions.ts:455-462 | The generation is published only if the Session is still live. |
| `TabSessions.WorkerTabSessions.HasConflict` | apps/worker/src/tab-sessions.ts:233-242 | Finds a Session that a maintenance Session may not share its Profile with. |
| `TabSessions.WorkerTabSessions.PruneCommands` | apps/worker/src/tab-sessions.ts:770-775 | The loops forget exactly the expired retirements and the expired commands without an entry. |
| `CommandCaching.SizeIsBounded` | apps/worker/src/control-client.ts:744-768 | Over all runs the cache holds at most 256 commands, one per id. |
| `CommandCaching.RunningIsNeverEvicted` | apps/worker/src/control-client.ts:1334-1351 | A command that is running stays cached until it completes, and its repetition is replayed. |
| `CommandCaching.ForgottenAtOnceExactly` | apps/worker/src/control-client.ts:836-839 | A command that completes is forgotten at once exactly if the cache is full and no other command completed earlier, or in the same millisecond having arrived before. Then a repetition runs again; otherwise it is answered with the result. |
| `CommandCaching.CompletingInAFullCache` | apps/worker/src/control-client.ts:836-839 | An instance: if all others run, exactly if the cache is full. |
| `CommandCaching.CompletingInTheSameMillisecond` | apps/worker/src/control-client.ts:1342-1350 | Another: of two that complete in the same millisecond the one that arrived first is forgotten at once. |
| `CommandCaching.ReceivedExactly` | apps/worker/src/control-client.ts:684-769 | What a message is answered; only a new and admitted one is run and enters the cache. |
| `CommandCaching.AnsweredForAnHour` | apps/worker/src/control-client.ts:1334-1340 | As long as the cache is never full, a completed command is answered from it for an hour, whatever arrives or completes meanwhile. |
| `CommandCaching.ForgottenAfterAnHour` | apps/worker/src/control-client.ts:1334-1340 | After that hour the next new command takes it out. |
| `CommandCaching.PrunedExactly` | apps/worker/src/control-client.ts:1334-1340 | With room in the cache, pruning takes exactly what completed more than an hour ago. |
| `CommandCaching.EvictedOldestFirst` | apps/worker/src/control-client.ts:1342-1350 | Eviction takes only completed commands, and none that completed after one it keeps. |
| `CommandCaching.EvictsNoMoreThanNeeded` | apps/worker/src/control-client.ts:1341-1350 | It stops as soon as there is room, and leaves none only if all that is left is running. |
| `CommandCaching.ReplayRepeats` | apps/worker/src/control-client.ts:716-742 | A repetition changes nothing, runs nothing and repeats the acknowledgement and any result; other content under the same id is refused. |
| `CommandCaching.SlotChangesOnce` | apps/worker/src/control-client.ts:754-768 | What is cached for a command changes only once, when it completes. |
| `CommandCaching.CapacityIsAllRunning` | apps/worker/src/control-client.ts:744-752 | Capacity is refused exactly when a new command meets 256 running ones. |
| `CommandCaching.StartedOnlyWhenAccepted` | apps/worker/src/control-client.ts:754-801 | A command runs once for each time it is accepted, and only then. |
| `CommandCaching.CommandCache.AcceptCommand` | apps/worker/src/control-client.ts:684-769 | The message is refused, replayed, refused for capacity or accepted, in the order of the checks. |
| `CommandCaching.CommandCache.PruneCommands` | apps/worker/src/control-client.ts:1334-1351 | The loops drop the stale commands, then the oldest completed ones until there is room. |
| `CommandCaching.CommandCache.FinishCommand` | apps/worker/src/control-client.ts:836-839 | The result is recorded once, with its time, and the cache is pruned. |
| `ProfileCommands.FencedNeverStarts` | apps/worker/src/profile-runtime-commands.ts:22-94 | Once a generation is fenced, no start of it or an older one reaches the runtime, whatever the delay, the duplication and the facts reported, and the fence never moves back. |
| `ProfileCommands.ExecutedExactly` | apps/worker/src/profile-runtime-commands.ts:25-79 | Once the facts are read, a stop goes ahead exactly if it is for the runtime there or there is none, and for no older generation than was told to stop; a start exactly if it is complete, above the fence, and meets no runtime, its own, or an older failed one, which it replaces. |
| `ProfileCommands.RefusedExactly` | apps/worker/src/profile-runtime-commands.ts:29-79 | The three refusals, and when each is given. |
| `ProfileCommands.GoesOnExactly` | apps/worker/src/profile-runtime-commands.ts:63-93 | A start that waits is launched exactly if the failed runtime was stopped; the last of a chain takes its tail with it. |
| `ProfileCommands.BeginsExactly` | apps/worker/src/control-client.ts:787-797 | A command begins exactly when the one it was chained behind has settled. |
| `ProfileCommands.NeverOverlap` | apps/worker/src/control-client.ts:787-797 | In every run, executions for one Profile never overlap, although finished chains are dropped. |
| `ProfileCommands.SomeoneCanMove` | apps/worker/src/control-client.ts:787-797 | While a command of a Profile has not settled, one of them is running or can begin. |
| `ProfileCommands.AdmittedStopRaisesFence` | apps/worker/src/profile-runtime-commands.ts:30-42 | A stop or deletion is admitted exactly when it is for the present runtime and not below the fence, and raises the fence to its generation. |
| `ProfileCommands.FenceOnlyRises` | apps/worker/src/profile-runtime-commands.ts:29-42 | The fence never moves back, even if executions overlap. |
| `ProfileCommands.DirectLaunchAboveFence` | apps/worker/src/profile-runtime-commands.ts:58-93 | A start that replaces nothing is above the fence even if executions overlap. |
| `ProfileCommands.ReplacementBreaksFence` | apps/worker/src/profile-runtime-commands.ts:63-79 | Without the chain, a start that waits for a failed runtime is at or below the fence exactly when a stop of its generation or a newer one is admitted meanwhile. |
| `ProfileCommands.OverlapBreaksFence` | apps/worker/src/profile-runtime-commands.ts:63-79 | A run, without the chain, in which that happens. |
| `ProfileCommands.ProfileRuntimeCommands.Execute` | apps/worker/src/profile-runtime-commands.ts:25-93 | Refuses, raises the fence, replaces or launches as specified, with the fence raised before anything waits. |
| `ProfileCommands.ProfileRuntimeCommands.AcceptProfileCommand` | apps/worker/src/control-client.ts:787-797 | The command is chained behind the Profile's last one. |
| `ProfileCommands.ProfileRuntimeCommands.Settle` | apps/worker/src/control-client.ts:791-796 | A settled command removes the tail only if it is the tail. |
| `LikeEscape.EscapesEachCharacter` | apps/backend/src/services/search.ts:2-4 | The three chained replacements equal one substitution per character. |
| `LikeEscape.ParseEscaped` | apps/backend/src/services/search.ts:2-4 | Escaped text is read back as the literal text, and what follows it is read on its own. |
| `LikeEscape.SearchFindsTheText` | apps/backend/src/services/admin-sessions.ts:68 | The pattern %escaped% is well-formed and matches exactly the texts in which the search text occurs, under any folding of characters. |

## Left out

- StorageRuns.StaysSoundExactly: writes stay inside reservations, files are retained under the size they have, and the quota is below 2^53 - 1, because the source keeps no such promise otherwise.
- StorageRuns.ReleaseExact: a failing lstat leaves a release unfinished, and no scan begins between the end of the one a release waited for and the release's own end.
- LedgersAgree.DownloadKeysAgree: the end of a release and the continuation that follows it are one step, and a reservation counts as released when its release succeeds.
- CommandCaching.ReceivedExactly: whether a message is admitted is an input, and closing the connection after some refusals is left out.
- SessionRecycling.LivelyNeverBringsForward: no event is later than the present, because a clock set back would bring recycling forward.
- Sockets, TLS, HTTP, timers as such, child processes, Chrome and the Remote Tab engine: only their outcomes, in any order.
- Pausing and resuming sockets under backpressure: it decides when input arrives, not what is done with it.
- JSON, MessagePack, URLs, scripts, UUIDs: opaque. JSON text is taken to be NUL-free, invertible and never empty; ids are taken to be fresh.
- Microtask order in the bridge: continuations run first in, first out.
- CdpPrivatePipes.MultiplexingIsInvisible: replies reach the private pipe under the client's own ids, which the bridge's in-flight table translates, and only the shared pipe knows whether there is room for a command.
- In the runs of the quota a scan has seen every path when it begins, and again at each later look, in any order: which paths a walk looks at, and directories, belong to `StorageScan`.
- Aliases of the storage roots: paths are canonical already.
- Sums beyond 2^53 and dates out of range: numbers are integers.
- Refreshing the observation after a Profile is forgotten, and thresholds computed from percentages of a volume.
- Leases, files and reservations are values found by their place in a list or map, not objects; a download store handle is its index.
- The order in which loops over maps visit their keys: any order.
- Recovery of the download store from disk is its result: the manifests found.
- Only one cleanup of a Session runs at a time, as the promise kept in the entry ensures.
- Lone surrogates in file names.
- At most one live interpreter around shutdown: closing the script runtime does not wait for its worker before another can start.
- Per-command execution behind the idempotency cache, handshake, heartbeats and reconnection of the control client.
- Navigation policy matching, Backend routes and SQL, schemas, configuration, identities, metrics, translations and the Portal: first-match or validation code with little to prove.
