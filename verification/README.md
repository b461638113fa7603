# NanoKVM server: who may drive the target, proved in Dafny

This project models the parts of the NanoKVM server that decide who may write to the HID endpoints of
the target machine, the smaller concurrent machines around video capture, and the sequential code with
the strongest promises. `dafny verify dfyconfig.toml` checks all of it.

## How the models are made

Concurrent code is a step system: a state with everything the threads share, one step per critical
section or channel operation, any number of threads or calls, and any interleaving. A run is a sequence
of states and events; theorems hold for every run. What the environment decides (file access, hooks,
timers, cancelled contexts, failing writes, the order in which a map is visited) is part of the events
or a parameter. Code that changes fields or local variables step by step is a class or a method with
loops; its contract ties it to the function that the step system, or the theorems, use.

| file | source | subject |
|---|---|---|
| `ActivityGate.dfy`, `ControlMode.dfy`, `InputControl.dfy` | `controlmode`, `inputcontrol` | the gate, the mode manager, the coordinator and the manual session: critical sections as functions, and as classes |
| `Arbitration.dfy` | the same, `toolExecutor.begin`, the jiggler and PicoClaw's write lease | the step system: tool calls, background actions, holders of write leases, manual reservations, completions, resets, closes and mode switches |
| `ArbitrationInvariant.dfy`, `ArbitrationSteps.dfy`, `ArbitrationTheorems.dfy` | | one inductive invariant in seven parts, its preservation step by step, and what follows from it |
| `SwitchTheorems.dfy`, `ReservationTheorems.dfy`, `CooldownTheorems.dfy`, `LostCooldown.dfy` | | the course of a mode switch, the way of a lease and of a reservation, and from the end of a session to the next tool |
| `HidHost.dfy`, `HidRules.dfy`, `HidOrder.dfy`, `HidWorkers.dfy` | `hid` | what the target may believe is held down, the order of a worker's effects, and the keyboard and mouse loops |
| `HeldLane.dfy` | `inputcontrol`, `hid`, `ws/client.go` | one client's session against what its two workers may leave held |
| `ReportQueue.dfy` | `ws/client.go` | the report queue with eviction |
| `H264Mode.dfy`, `CaptureStatus.dfy` | `stream`, `ws` | status stores, coalescing mailboxes and their runners |
| `CaptureGate.dfy`, `FrameSlot.dfy` | `common`, `stream` | teardown of the capture library against its use; the one-place frame buffer |
| `Remote.dfy`, `Movement.dfy`, `Typing.dfy`, `Pressing.dfy` | `mcp`, `hid/paste.go` | the MCP remote control |
| `Paths.dfy`, `Archive.dfy` | `application/archive.go` | path cleaning, and the two passes over an update archive |
| `Text.dfy`, `ResolvConf.dfy` | `network/dns.go` | the resolver file, parsed and rendered |
| `Accounts.dfy`, `AccountTheorems.dfy`, `AccountBook.dfy` | `authn/store.go` | the account store, its runs, and the book of accounts that it stands for |
| `Logins.dfy`, `LoginTheorems.dfy`, `LockoutTheorems.dfy` | `auth/brute_force.go` | the table of failed logins, who gives way in it, and who is locked out |

## Where the code promises less than it seems to

For each of these a theorem says exactly when the promise holds, and a case is given in which it fails.

- An account operation that returns an error has normally changed nothing. It has stored the new users all
  the same if the directory could not be synced after the file was replaced, or if the system-side update
  failed and so did taking the change back (`AccountTheorems.ErrorsKeepTheUsers`,
  `AccountTheorems.ErrorsCanLeak`).
- A resolver file that parses can be rendered into one that does not: search domains of several lines are
  written on one line, which may be too long for the scanner (`ResolvConf.RoundTrip`,
  `ResolvConf.MergedSearchLineIsLost`).
- A manual session is meant to be active, and to keep MCP operations out, while the target may believe that
  a key or button is down. One report that fails clears the held flags of all endpoints, and an evicted one
  counts as failed, so a failed mouse report can end the session of a client whose key is still down. The
  session covers what is held as long as no report fails or is evicted, and the session is not closed, while
  some endpoint may be held whose worker has nothing else to complete; and each such event can end in an
  idle session with something held (`HeldLane.LaneCovers`, `HeldLane.TrackKeptIff`,
  `HeldLane.EveryLossCanShow`, `HeldLane.KeyOutlivesTheLane`).
- The end of a session that asks for a cooldown starts one only if no other session is counted at that
  moment, and a reservation on its way is counted. If that gives up afterwards, no cooldown is started at all,
  and an MCP operation may open at once (`CooldownTheorems.EndingKeepsToolsOut`,
  `LostCooldown.CooldownCanBeLost`).
- Evicting a login record marks "none chosen" with the empty address, so on a full table a record of the
  empty address can make the eviction fail, and the failure of a new address then goes uncounted
  (`LoginTheorems.EvictionFreesIff`, `LoginTheorems.EmptyAddressStopsTracking`).
- `sendQueue` on a queue without room, while the worker is busy, reports success and loses the report. The
  server's own queues hold 200; with room for one it always sends by its second try
  (`ReportQueues.SecondTrySends`, `ReportQueues.WithoutRoomAReportIsLost`).
- A failed save of the control mode may leave the new mode in force, if only the directory sync failed
  (`ControlMode.ModeManager.SaveMode`, `ArbitrationTheorems.SwitchOutcome`).

## Model

| member | source | states |
|---|---|---|
| `ActivityGates.ActivityGate.TryAcquireShared` | server/service/controlmode/activity.go:22-46 | one pass of the shared loop enters or parks on the current wake-up channel, exactly as the gate function the step system runs |
| `ActivityGates.ActivityGate.TryAcquireExclusive` | server/service/controlmode/activity.go:48-82 | the same for the exclusive loop, which enters only an idle gate |
| `ActivityGates.ActivityGate.DoReleaseShared` | server/service/controlmode/activity.go:36-44 | a shared release gives up one place and closes the channel the waiters are parked on |
| `ActivityGates.ActivityGate.DoReleaseExclusive` | server/service/controlmode/activity.go:62-70 | an exclusive release opens the gate and closes that channel |
| `ControlMode.ModeManager.Status` | server/service/controlmode/manager.go:76-84 | the reported mode is the one in force, reread unless a transition or an unchanged file says otherwise; an unreadable file changes nothing |
| `ControlMode.ModeManager.SetTransitioning` | server/service/controlmode/manager.go:375-379 | the transition mark changes alone |
| `ControlMode.ModeManager.SaveMode` | server/service/controlmode/manager.go:466-522 | the mode is in force and in the file together, also when the last sync fails; an early failure changes neither |
| `ControlMode.NewManagerReads` | server/service/controlmode/manager.go:65-74 | a new manager finds the mode that the file names, off if it names none, and the default without a file |
| `ControlMode.SavedModeIsRead` | server/service/controlmode/manager.go:466-522 | a mode that was saved, or replaced the file before the save failed, is in force and is what a later manager reads |
| `InputControl.Cooldown` | server/service/inputcontrol/coordinator.go:216-221 | the cooldown is the one that was set, or two seconds, and never nothing |
| `InputControl.InputCoordinator.BeginMCP` | server/service/inputcontrol/coordinator.go:107-148 | an operation begins exactly if no manual session, cooldown or other operation stands in its way, and a refused one leaves no trace |
| `InputControl.InputCoordinator.ReleaseOperation` | server/service/inputcontrol/coordinator.go:136-147 | ending an operation frees the slot only for the operation that holds it |
| `InputControl.InputCoordinator.CancelMCP` | server/service/inputcontrol/coordinator.go:158-168 | a cancelled operation keeps its slot and its first cause |
| `InputControl.InputCoordinator.StartManual` | server/service/inputcontrol/coordinator.go:170-196 | a manual session is counted before it waits, and waits for the HID operation that was open at that moment |
| `InputControl.InputCoordinator.StopManual` | server/service/inputcontrol/coordinator.go:198-207 | the last session that ends starts the cooldown |
| `InputControl.ManualSession.Join` | server/service/inputcontrol/coordinator.go:289-331 | joining or activating adds one pending report; activating begins a new generation and takes over the lease |
| `InputControl.ManualSession.CompleteReport` | server/service/inputcontrol/coordinator.go:411-440 | a completion of the current generation settles one pending report and what it holds; others change nothing |
| `InputControl.ManualSession.ResetKind` | server/service/inputcontrol/coordinator.go:363-384 | a reset forgets what one endpoint holds and may end the session |
| `InputControl.ManualSession.CloseSession` | server/service/inputcontrol/coordinator.go:386-409 | closing ends the session for good and hands out its lease once |
| `ArbitrationSteps.InvKept` | server/service/inputcontrol/coordinator.go:107-461 | every step of every thread keeps the invariant |
| `ArbitrationSteps.InvOnRuns` | server/service/inputcontrol/coordinator.go:107-461 | so it holds in every reachable state |
| `ArbitrationTheorems.ManualExcludesHID` | server/service/inputcontrol/coordinator.go:170-207 | an active manual session never coexists with an open HID operation, for any number of sessions and operations |
| `ArbitrationTheorems.ManualWritesExcludeHID` | server/service/inputcontrol/coordinator.go:251-331 | while a reservation of the current generation is uncompleted, its session is active with an open lease, and no HID operation is open |
| `ArbitrationTheorems.ToolsRunInMcpMode` | server/service/mcp/server.go:360-398 | at most one operation runs, and a HID operation that the executor opened runs under a lease with the mode equal to mcp; one of the jiggler may run in any mode |
| `ArbitrationTheorems.WritersHaveTheirMode` | server/service/controlmode/manager.go:120-130 | whoever writes under a lease of AcquireWrite(expected), as PicoClaw does, has that mode in force and no switch inside the gate |
| `ArbitrationTheorems.WritersOfModesExclude` | server/service/picoclaw/service.go:227-234 | writers of different modes never write together, and an MCP HID operation never overlaps a PicoClaw writer |
| `ArbitrationTheorems.LeaseSeesOneMode` | server/service/controlmode/manager.go:120-160 | a lease, for whatever mode or for none, sees one mode from its second check until its release |
| `ArbitrationTheorems.WriteLeaseSeesItsMode` | server/service/controlmode/manager.go:120-130 | and a lease that AcquireWrite(expected) admitted sees the expected mode, whichever that is |
| `ArbitrationTheorems.OpenLeasesAgree` | server/service/controlmode/manager.go:120-160 | leases that were granted in different modes are never open together |
| `ArbitrationTheorems.SavesOnlyWithoutLeases` | server/service/controlmode/manager.go:194-238 | the mode file is written only while no lease is open anywhere |
| `ReservationTheorems.LeasesAreCheckedTwice` | server/service/controlmode/manager.go:120-160 | a thread goes for a lease only if the mode can be read, no switch is marked and a writer finds its mode; the same check under the lease decides whether it keeps it, and for what |
| `ReservationTheorems.SessionsAreAllowed` | server/service/inputcontrol/coordinator.go:251-331 | a session becomes active only by a reservation of its own that the caller allowed under its lease, in the mode still in force; it begins a new generation with that one report pending |
| `ReservationTheorems.UndisturbedReservation` | server/service/inputcontrol/coordinator.go:251-331 | with nothing in its way a reservation of an idle session activates it in six steps |
| `ReservationTheorems.WaitingEnds` | server/service/inputcontrol/coordinator.go:170-196 | a waiting reservation goes on once the operation is over, and gives up if its own context ends |
| `ReservationTheorems.ClosedForGood` | server/service/inputcontrol/coordinator.go:386-409 | a closed session is never active again, and has nothing pending |
| `ReservationTheorems.OperationsKeepTheirCause` | server/service/inputcontrol/coordinator.go:150-196 | only a HID operation is cancelled for a manual session, and only a preempting switch cancels for a mode change; the first cause stays |
| `CooldownTheorems.ReservationJoinsIff` | server/service/inputcontrol/coordinator.go:262-345 | a report of an active session gets in exactly if it lets go of what is held, or no switch is marked and the caller allows it; letting go always asks for the cooldown |
| `ArbitrationTheorems.SwitchOutcome` | server/service/controlmode/manager.go:166-336 | a finished switch has its target mode, a failed cleanup falls back to off, and a failure before the save leaves the mode alone |
| `SwitchTheorems.SwitchIfNeedsItsMode` | server/service/controlmode/manager.go:249-336 | a switch marks a transition, or changes the mode or its file, only if the mode that it found at its check has been in force ever since; for a conditional switch that is the expected mode |
| `SwitchTheorems.SwitchSkippedIff` | server/service/controlmode/manager.go:255-286 | a switch comes to nothing exactly if at its check the mode could not be read, the target was no mode or in force already, or the mode was not the expected one |
| `SwitchTheorems.SwitchHasItsCourse` | server/service/controlmode/manager.go:166-336 | whatever a switch comes out as, its thread took just the steps that lead there: preemption, waiting, cleanup, save or rollback, each failed or passed as the outcome says |
| `ArbitrationTheorems.CountsAreExact` | server/service/inputcontrol/coordinator.go:262-330 | the gate's count is the open leases, the session count is the active sessions and those in flight, and pending is the uncompleted reservations of the current generation |
| `ArbitrationTheorems.LeasesHaveOneHolder` | server/service/inputcontrol/coordinator.go:442-461 | an issued lease is spent, or held by exactly one thread or session |
| `ArbitrationTheorems.SessionsEndWhenIdle` | server/service/inputcontrol/coordinator.go:442-452 | a session is active exactly while something is pending or held, and has a lease for exactly that long |
| `ArbitrationTheorems.GuardsNeverFire` | server/service/inputcontrol/coordinator.go:198-207 | the "greater than zero" guards always pass, and no release function runs twice |
| `ArbitrationTheorems.StaleCompletionsDoNothing` | server/service/inputcontrol/coordinator.go:347-354 | completing twice, or for an older generation, changes nothing |
| `ArbitrationTheorems.StaleStays` | server/service/inputcontrol/coordinator.go:411-440 | a reservation that is completed or of an older generation stays so for the rest of the run |
| `ArbitrationTheorems.QuietMeansClean` | server/service/inputcontrol/coordinator.go:454-461 | when every thread has finished, nothing is left but the sessions that hold the lane, each with its lease |
| `ArbitrationTheorems.CooldownKeepsToolsOut` | server/service/inputcontrol/coordinator.go:107-135 | after the last session ends with a cooldown, no HID operation opens before the cooldown is over |
| `CooldownTheorems.CooldownIsRemembered` | server/service/inputcontrol/coordinator.go:411-452 | an active session is due a cooldown exactly if a reservation completed in its activation asked for one |
| `CooldownTheorems.EndingsThatCoolDown` | server/service/inputcontrol/coordinator.go:363-461 | so a completion that ends a session carries a cooldown exactly then; a reset or a close that ends one always does |
| `CooldownTheorems.EndingKeepsToolsOut` | server/service/inputcontrol/coordinator.go:198-207 | after such an ending no HID operation opens before the session is uncounted, nor before the end of the cooldown if it was the last one counted then |
| `CooldownTheorems.CompletionKeepsToolsOut` | server/service/inputcontrol/coordinator.go:411-461 | in particular after the completion of a released key that ends its session |
| `LostCooldown.CooldownCanBeLost` | server/service/inputcontrol/coordinator.go:198-207 | a run in which a HID operation opens at the moment at which a session ended with a cooldown |
| `CooldownTheorems.CooldownsHaveACause` | server/service/inputcontrol/coordinator.go:198-207 | every cooldown was started by the last counted session, when it ended with one |
| `CooldownTheorems.ToolsBeginIff` | server/service/inputcontrol/coordinator.go:107-148 | a tool begins exactly if no operation runs and, on the HID lane, no session is active, coming or going and no cooldown runs |
| `ArbitrationTheorems.ManualWaitsForCancelled` | server/service/inputcontrol/coordinator.go:170-196 | a reservation waits only for an operation that is already cancelled and has a thread to end it |
| `ArbitrationTheorems.NoLostWakeUps` | server/service/controlmode/activity.go:22-97 | who is parked on an open channel waits for something that has not happened yet, on the channel that will be closed when it does |
| `ArbitrationTheorems.ExclusiveMeansNoLease` | server/service/controlmode/activity.go:48-82 | the exclusive side is one switch, and no lease is open under it |
| `HidHost.MayHoldIsExact` | server/service/hid/keyboard.go:79-92 | the log predicate is exact: some choice of which failed writes arrived leaves the endpoint holding something |
| `HidWorkers.KeyboardReports` | server/service/hid/keyboard.go:22-77 | every report has its turn and is completed once; each is written at most once and in order; a failed write is followed by dropping what waits and releasing; if no write fails the reports written are the well-formed ones; nothing is left held unless the closing release failed |
| `HidWorkers.MouseReports` | server/service/hid/mouse.go:22-153 | the same for two endpoints, which moreover never both hold a button |
| `HidWorkers.CleanupFailure` | server/service/hid/mouse.go:50-92 | after a failed write the queue has been dropped, the endpoints that may be held were released or failed to be, and the flags still cover them |
| `HidWorkers.KeyboardFailure` | server/service/hid/keyboard.go:52-71 | the same for the keyboard, whose release is always tried |
| `HidWorkers.Channel.Drain` | server/service/hid/keyboard.go:98-112 | draining completes exactly what is queued at that moment, in order, and changes nothing the target holds |
| `HidOrder.WrittenInOrder` | server/service/hid/keyboard.go:43-76 | in every log that keeps the workers' rules the reports are written in the order of the queue, and none twice |
| `HidOrder.SuccessWasWritten` | server/service/hid/mouse.go:117-124 | a report completed with success was written exactly once |
| `HidOrder.TroubleMeans` | server/service/hid/mouse.go:50-92 | a failure is being dealt with exactly while a write has failed and the report in hand is not settled; nothing is written for a report meanwhile |
| `HidOrder.FailedOnlyAfterFailure` | server/service/hid/mouse.go:50-92 | a well-formed report fails only then: dropped from the queue, or in hand once its endpoint and all that may be held were seen to |
| `HidOrder.AllArrive` | server/service/hid/mouse.go:94-152 | without a failed write the reports written are exactly the well-formed reports of the queue, in order |
| `HeldLane.LaneCovers` | server/service/inputcontrol/coordinator.go:411-452 | over every run of two workers, a session in which nothing was lost track of is active while anything may be held |
| `HeldLane.TrackKeptIff` | server/service/inputcontrol/coordinator.go:411-440 | an event keeps track of what may be held if and only if it does not fail or evict a report, or close the session, while some endpoint may be held whose worker has nothing else to complete |
| `HeldLane.EveryLossCanShow` | server/service/inputcontrol/coordinator.go:424-428 | after every such event the run can go on to a session that is idle while something may be held |
| `HeldLane.KeyOutlivesTheLane` | server/service/inputcontrol/coordinator.go:424-428 | it does happen: one failed mouse report ends the session over a key that is down |
| `ReportQueues.EveryReservationCompletedOnce` | server/service/ws/client.go:114-142 | a reservation is completed at most once, and once nothing is in flight exactly once, however it ended |
| `ReportQueues.SecondTrySends` | server/service/ws/client.go:338-372 | with room for one report the send loop ends at its second try, so its last return is never reached |
| `ReportQueues.WithoutRoomAReportIsLost` | server/service/ws/client.go:338-372 | without room, and with a busy worker, that return is reached and the report is lost |
| `ReportQueues.SendQueue` | server/service/ws/client.go:338-372 | the new report ends up last, at most one report is evicted, and the rest keep their order whatever the worker takes meanwhile; a missing queue is refused, and so is one closed before or while sending |
| `H264Mode.H264ModeStore.UpdateLocked` | server/service/stream/h264_mode.go:104-140 | counts, revision and the queued notification move together; a token follows exactly if Mixed changed |
| `H264Mode.H264ModeStore.TakePending` | server/service/stream/h264_mode.go:157-168 | notifications leave oldest first |
| `H264Mode.ModeBroadcaster.Enqueue` | server/service/ws/h264_mode.go:35-44 | the mailbox holds the newest status only, and a token is posted |
| `H264Mode.ModeBroadcaster.TakePending` | server/service/ws/h264_mode.go:59-70 | taking empties it and leaves the token alone |
| `H264Mode.CountsAreLive` | server/service/stream/h264_mode.go:68-81 | the counts are the live registrations, so they never go negative |
| `H264Mode.NotificationsAreOrdered` | server/service/stream/h264_mode.go:104-155 | queued notifications have rising revisions and alternate Mixed; broadcasts are some of them, in order |
| `H264Mode.NoLostNotification` | server/service/stream/h264_mode.go:142-155 | a parked runner with work has a token or somebody about to post one, in both stages |
| `H264Mode.QuietMeansTold` | server/service/ws/h264_mode.go:46-57 | once both runners are idle, the last broadcast is the last notification and says what the store knows |
| `CaptureStatus.CaptureStatusBroadcaster.Enqueue` | server/service/ws/capture_status.go:38-47 | one pending status per mode, the newest, and a token is posted |
| `CaptureStatus.CaptureStatusBroadcaster.TakePending` | server/service/ws/capture_status.go:64-85 | everything pending leaves at once, in the order of the modes |
| `CaptureStatus.ListingIsUnique` | server/service/ws/capture_status.go:72-76 | that order is determined |
| `CaptureStatus.BroadcastsKeepOrder` | server/service/ws/capture_status.go:49-62 | broadcasts of one mode keep their order and none is repeated |
| `CaptureStatus.NoLostStatus` | server/service/ws/capture_status.go:38-62 | a parked runner with a pending status has a token or a poster |
| `CaptureStatus.QuietMeansBroadcast` | server/service/ws/capture_status.go:38-85 | when nothing is left to do, the newest status of every mode is the last one broadcast for it |
| `CaptureGates.CaptureGate.WithRead` | server/common/capture_gate.go:42-71 | an undisturbed read always runs, after a rebuild if one is needed |
| `CaptureGates.CaptureGate.Stop` | server/common/capture_gate.go:76-86 | teardown happens once per life |
| `CaptureGates.CaptureGate.Resume` | server/common/capture_gate.go:90-100 | rebuild happens only after a teardown |
| `CaptureGates.CaptureGate.WithLive` | server/common/capture_gate.go:114-125 | a control call runs only while live, and never rebuilds |
| `CaptureGates.LegalAlternates` | server/common/capture_gate.go:5-16 | in a tolerated trace teardown and rebuild strictly alternate, teardown first, without overlap |
| `CaptureGates.TraceIsLegal` | server/common/capture_gate.go:42-125 | whatever the interleaving, the library never sees a call it does not tolerate |
| `CaptureGates.UsesAndTeardownsExclude` | server/common/capture_gate.go:42-125 | a use begins only with the library up, a teardown only with no use in progress |
| `CaptureGates.FlagIsTrueWhenIdle` | server/common/capture_gate.go:18-29 | between calls the flag is the state of the library |
| `CaptureGates.RefusalMeansTeardown` | server/common/capture_gate.go:62-66 | a refused read was overtaken by a teardown after its own rebuild |
| `FrameSlots.FrameSlot.TryPut` | server/service/stream/frame_slot.go:37-52 | accepted exactly if open and empty; otherwise counted as dropped if open |
| `FrameSlots.FrameSlot.Replace` | server/service/stream/frame_slot.go:56-75 | the newest frame is pending and the one it displaced is counted |
| `FrameSlots.FrameSlot.Take` | server/service/stream/frame_slot.go:84-88 | the pending frame is delivered, also after Close; the end is reported only when all is accounted for |
| `FrameSlots.FrameSlot.Close` | server/service/stream/frame_slot.go:96-106 | closing keeps the pending frame |
| `FrameSlots.FramesAreConserved` | server/service/stream/frame_slot.go:37-88 | every frame offered while open is in exactly one place, and offered = taken + dropped + pending at rest |
| `FrameSlots.TakenInOrder` | server/service/stream/frame_slot.go:84-88 | frames are taken in the order offered |
| `FrameSlots.ProducersNeverBlock` | server/service/stream/frame_slot.go:64-73 | the holder of the mutex can always go on, so Replace's send never blocks |
| `FrameSlots.PendingSurvivesClose` | server/service/stream/frame_slot.go:84-106 | a frame pending at Close has been delivered by the time Take reports the end |
| `Archive.Inspect` | server/service/application/archive.go:22-85 | accepts exactly the archives whose every entry passes, with a root directory and a version file; otherwise names the first failure; totals without wrap-around |
| `Archive.Extract` | server/service/application/archive.go:87-160 | succeeds exactly if every entry passes the same checks and every write works; asks for the entries' files in order |
| `Archive.ChecksMean` | server/service/application/archive.go:46-76 | all checks pass exactly if names are valid and distinct, sizes not negative, at most 100,000 entries and 2 GiB |
| `Archive.HeaderAcceptedIff` | server/service/application/archive.go:162-177 | a name is accepted exactly if it is relative and, cleaned, consists of real names beginning with the root's, for a file or a directory |
| `Archive.EntryStaysBelow` | server/service/application/archive.go:162-177 | an accepted name joined to the destination is the root or below it through real names only, for every root and destination |
| `Archive.EntriesAreSeparate` | server/service/application/archive.go:50-53 | no two entries of an accepted archive share a path, under any root and destination |
| `Archive.EffectsStayBelow` | server/service/application/archive.go:124-156 | so is every path asked for |
| `Archive.EveryEntryIsAskedFor` | server/service/application/archive.go:124-156 | every file is asked for at its own path with its own size, every directory is asked for, and no other file is |
| `Archive.DirectoriesComeFirst` | server/service/application/archive.go:139-147 | right before a file its directory is asked for |
| `Archive.BytesAreTotal` | server/service/application/archive.go:65-76 | the bytes of the files are the bytes counted |
| `Archive.InspectThenExtract` | server/service/application/archive.go:22-160 | after inspection extraction fails only by failing to write, totals the same bytes within 2 GiB, and stays below the root |
| `Paths.CleanIsPlain` | server/service/application/archive.go:166-169 | a clean relative path that does not climb consists of real names |
| `Paths.JoinAppends` | server/service/application/archive.go:124-124 | joining real names appends them to the cleaned directory |
| `Paths.JoinIsInjective` | server/service/application/archive.go:124-124 | different names made of real parts only give different paths when joined to a directory |
| `Paths.DirDropsLast` | server/service/application/archive.go:139-139 | the parent of a joined path is the path without its last name |
| `ResolvConf.Parse` | server/service/network/dns.go:333-375 | the loop computes the parse that the theorems are about |
| `ResolvConf.Render` | server/service/network/dns.go:500-532 | the builder writes exactly the lines of the normalised configuration |
| `ResolvConf.NormalizeServers` | server/service/network/dns.go:546-571 | canonical addresses, first occurrences in order, or the first invalid one |
| `ResolvConf.NormalizeDomains` | server/service/network/dns.go:573-591 | trimmed domains, first occurrences in order |
| `ResolvConf.NormalServersMean` | server/service/network/dns.go:546-571 | servers normalise exactly if none is invalid, to the canonical forms of those not blank, each once, in the order of first occurrence; otherwise the first invalid one is named |
| `ResolvConf.NormalDomainsMean` | server/service/network/dns.go:573-591 | domains normalise to their trimmed words, each once, in the order of first occurrence |
| `ResolvConf.RenderedIff` | server/service/network/dns.go:500-507 | a configuration is written exactly if no server is invalid and one is not blank |
| `ResolvConf.DomainLine` | server/service/network/dns.go:343-360 | a domain line is read as one search domain |
| `ResolvConf.CommentsAreIgnored` | server/service/network/dns.go:604-610 | what follows a comment mark plays no part |
| `ResolvConf.ParsedIsNormal` | server/service/network/dns.go:361-374 | what is parsed is distinct, canonical and free of spaces and comment marks |
| `ResolvConf.NormalRoundTrip` | server/service/network/dns.go:500-532 | rendering such a configuration can be read back exactly if every line fits the scanner, and is an error otherwise |
| `ResolvConf.RoundTrip` | server/service/network/dns.go:333-375 | parse, render, parse gives the same servers and search domains, if and only if every rendered line fits |
| `ResolvConf.MergedSearchLineIsLost` | server/service/network/dns.go:350-356 | any two search lines that fit apart and not together are such a case |
| `ResolvConf.LimitCanBeHit` | server/service/network/dns.go:511-517 | and there are some |
| `Movement.BuildRelativeMoveReports` | server/service/mcp/mouse.go:36-50 | refused above 1024 reports; otherwise the signed bytes sum to the delta, in as many reports as counted, in steps of at most 127 that never turn back |
| `Movement.CountIsCeiling` | server/service/mcp/mouse.go:84-93 | the count is the distance over 127 rounded up, without overflow at the smallest integer |
| `Movement.RelativeReport` | server/service/mcp/mouse.go:27-34 | each byte is read back as its component when that is within 127 |
| `Movement.AbsoluteReport` | server/service/mcp/mouse.go:18-25 | the coordinates and the wheel can be read back |
| `Remotes.LookAndWrite` | server/service/mcp/remote.go:123-142 | a report of a plan is written right after a look at the context; after a cancellation or a failed write only the release is tried, and the error says which it was |
| `Movement.AbsoluteCoordinate` | server/service/mcp/mouse.go:13-16 | fractions map into 1 to 0x8000, clamped at both ends |
| `Movement.CoordinatesAreMonotone` | server/service/mcp/mouse.go:13-16 | and keep their order |
| `Movement.MoveRelative` | server/service/mcp/remote.go:123-142 | writes the plan and heeds the context before every report; it fails exactly if cancelled or a write failed, with one stop report then |
| `Movement.MovementIsExact` | server/service/mcp/remote.go:123-142 | whichever failed writes arrive, success moves by exactly the delta and failure never overshoots or turns back |
| `Movement.Scroll` | server/service/mcp/remote.go:180-208 | writes turns and releases alternately, heeds the context before every turn, and ends with a release on every way out |
| `Movement.ScrollIsExact` | server/service/mcp/remote.go:180-208 | whichever failed writes arrive, success turns the wheel by exactly the delta and failure by a part of it |
| `Movement.ScrollPlanLength` | server/service/mcp/remote.go:180-183 | two reports for every counted step, the last a release |
| `Remotes.RanDelivers` | server/service/mcp/remote.go:31-56 | a call that succeeds delivers its plan, one that fails a beginning of it |
| `Remotes.RanEndsReleased` | server/service/mcp/remote.go:31-208 | after any exit something is held only if the last write, the release, failed |
| `Typing.BuildTypeReports` | server/service/mcp/keyboard.go:104-122 | a press and a release for every typeable character, the others returned as skipped, both in order |
| `Typing.TableIsRead` | server/service/hid/paste.go:275-338 | a target that knows the US layout reads every character of the table as that character |
| `Typing.TableIsInjective` | server/service/hid/paste.go:275-338 | so no two characters share a key |
| `Typing.TableIsComplete` | server/service/hid/paste.go:275-338 | the table has exactly printable ASCII, the line feed and the tabulator |
| `Typing.TypingRoundTrip` | server/service/mcp/keyboard.go:104-122 | the target gets exactly the printable characters, line feeds and tabulators of the text in order, repeated ones included |
| `Typing.TypeText` | server/service/mcp/remote.go:31-56 | writes the plan for the text, heeding the context before every report, and fails exactly if cancelled or a write failed, without leaving a key down |
| `Typing.TypingIsExact` | server/service/mcp/remote.go:31-56 | whichever failed writes arrive, success types the typeable characters and failure a beginning of them |
| `Typing.TypingEndsWithKeyUp` | server/service/mcp/remote.go:37-51 | whatever was held before and on every way out, the last report attempted, if any, is the key-up |
| `Typing.TypingEndsReleased` | server/service/mcp/remote.go:37-51 | a keyboard that was free before may be held afterwards only if the closing key-up was written last and failed |
| `Pressing.BuildKeyComboReport` | server/service/mcp/keyboard.go:75-102 | refused for an unknown key or a seventh code; otherwise modifiers and codes are in their places |
| `Pressing.KeyTableIsInjective` | server/service/mcp/keyboard.go:25-56 | the table of key names gives every key its own code, never zero |
| `Pressing.KeyTableIsComplete` | server/service/mcp/keyboard.go:25-56 | every usage code from A to the context menu key has its name in the table |
| `Pressing.CodesAreTheKeys` | server/service/mcp/keyboard.go:80-98 | the codes are those of the keys asked for, none twice, in the order of first mention |
| `Pressing.ModifiersAreTheKeys` | server/service/mcp/keyboard.go:14-23 | a modifier bit is set exactly if its modifier was asked for |
| `Pressing.ModifiersHaveTheirBits` | server/service/mcp/keyboard.go:14-23 | each of the eight modifiers has the bit of its place in the first byte |
| `Pressing.ButtonsHaveTheirBits` | server/service/mcp/mouse.go:52-63 | so has each of the three buttons |
| `Pressing.PressKeys` | server/service/mcp/remote.go:58-79 | presses and releases the combination, heeding the context before each; a refused one writes nothing |
| `Pressing.TouchAbsoluteButton` | server/service/mcp/remote.go:94-121 | presses and releases in one place; a point off the screen or an unknown button writes nothing |
| `Pressing.MoveAbsolute` | server/service/mcp/remote.go:81-92 | one report without a button, unless refused or cancelled |
| `Pressing.Click` | server/service/mcp/remote.go:144-178 | as many clicks as asked, at least one and at most five, each released, heeding the context in between |
| `Pressing.PressKeysEndsReleased` | server/service/mcp/remote.go:58-79 | after pressing a combination nothing stays down unless the last write, the key-up, failed |
| `Pressing.TouchEndsReleased` | server/service/mcp/remote.go:94-121 | after a touch no button stays down unless the last write, the release in the same place, failed |
| `Pressing.ClickingEndsReleased` | server/service/mcp/remote.go:144-178 | the same after clicking |
| `Accounts.Validate` | server/authn/store.go:524-559 | finds the first problem, and gives every user a version other than zero |
| `AccountTheorems.ProblemMeans` | server/authn/store.go:524-559 | there is none exactly if names are valid and unique, an enabled administrator exists, and at most one system account, which is one |
| `Accounts.Store.Load` | server/authn/store.go:374-429 | missing and legacy files become a database when migrating, and are only read otherwise |
| `Accounts.Store.Save` | server/authn/store.go:431-476 | invalid users and early failures leave the file; a late failure has replaced it |
| `Accounts.Store.Create` | server/authn/store.go:195-232 | a valid name, password and role add one enabled user with a fresh version, a taken name is an error; file and result are those of the specification that the run theorems use |
| `Accounts.Store.Update` | server/authn/store.go:234-282 | only what the patch names changes, and the version is bumped; demoting oneself, the system account or the last enabled administrator is an error; as specified |
| `Accounts.Store.Delete` | server/authn/store.go:284-309 | one user goes, never oneself, the system account or the last enabled administrator; as specified |
| `Accounts.Store.SetPasswordAndRun` | server/authn/store.go:318-354 | hash and version change together and are taken back when the system-side update fails; as specified |
| `Accounts.Store.Revoke` | server/authn/store.go:356-372 | only the version of that user changes; as specified |
| `Accounts.Store.Authenticate` | server/authn/store.go:140-182 | a wrong password, an unknown and a disabled user are answered with no user and no error; nothing changes but an old-style hash that matched; as specified |
| `Accounts.Store.ValidateToken` | server/authn/store.go:184-193 | accepts exactly the current version of an enabled user, and changes nothing |
| `AccountTheorems.UsersStayValid` | server/authn/store.go:195-372 | over every run, from any file, the file is untouched or holds valid users |
| `AccountTheorems.SoundStays` | server/authn/store.go:195-372 | once valid, always valid |
| `AccountTheorems.SystemAccountStays` | server/authn/store.go:240-298 | a system account is never removed, demoted or disabled, and no second one appears |
| `AccountBook.StoreIsABook` | server/authn/store.go:140-372 | where files can be read and written, a call succeeds exactly if the book of accounts allows it, gives the first reason otherwise, and turns the book into the new book or leaves it |
| `AccountBook.OldBookOrNew` | server/authn/store.go:431-476 | whatever fails, the file stands for the old book or the new one, and the new one only if the call was allowed |
| `AccountBook.ReturnsTheAccount` | server/authn/store.go:140-372 | the user returned, if any, is the account as it is left in the book |
| `AccountBook.AuthenticateAnswers` | server/authn/store.go:140-182 | only the right password of an enabled account of that name signs in; a wrong one, an unknown and a disabled name get nobody; only an old-style password changes anything, namely that account's hash |
| `AccountBook.TokenAcceptedIff` | server/authn/store.go:184-193 | a token is accepted exactly if it has the current version of an enabled account |
| `AccountBook.TokensStayGood` | server/authn/store.go:184-193 | and it stays accepted for as long as nobody updates, deletes or revokes the account or sets its password |
| `AccountTheorems.ErrorsKeepTheUsers` | server/authn/store.go:318-354 | an error leaves the users as they were, except exactly when valid users were about to be stored and the save failed late or could not be taken back; then the file holds just those |
| `AccountTheorems.SuccessStores` | server/authn/store.go:431-476 | a call that succeeds has stored the users it was about to store |
| `AccountTheorems.ErrorsCanLeak` | server/authn/store.go:431-476 | both kinds of exception do happen |
| `AccountTheorems.BumpsGoRound` | server/authn/store.go:545-547 | increment and validation are one cycle over all 64-bit values but zero |
| `AccountTheorems.BumpsReachAll` | server/authn/store.go:545-547 | which passes through every one of them |
| `AccountTheorems.BumpsAreDistinct` | server/authn/store.go:545-547 | and returns only after 2^64 - 1 steps |
| `AccountTheorems.VersionsGoRound` | server/authn/store.go:277-341 | over a run a user's version moves round it one step per change |
| `AccountTheorems.RevokedStaysRevoked` | server/authn/store.go:184-193 | once a change has bumped a user's version, every earlier version is rejected for the rest of the run |
| `AccountTheorems.SuccessRevokes` | server/authn/store.go:318-372 | a successful revocation or password change is such a change |
| `Logins.LoginGuard.CheckLoginAttempt` | server/service/auth/brute_force.go:67-92 | blocks exactly while the lockout lasts, and wipes a lockout that is over |
| `Logins.LoginGuard.RecordLoginFailure` | server/service/auth/brute_force.go:95-138 | the failure is recorded unless a full table could not free a slot |
| `Logins.LoginGuard.EvictOneRecord` | server/service/auth/brute_force.go:144-198 | the visit makes the choice that the theorems are about, for every order of the visit |
| `Logins.LoginGuard.Cleanup` | server/service/auth/brute_force.go:41-53 | removes exactly the expired records |
| `Logins.LoginGuard.ClearLoginAttempt` | server/service/auth/brute_force.go:211-221 | forgets one address |
| `LoginTheorems.EvictionOrder` | server/service/auth/brute_force.go:144-198 | among non-empty addresses a slot is always freed: by the expired records, else the longest-failing unlocked one, else the lockout that ends first |
| `LoginTheorems.EvictionFreesIff` | server/service/auth/brute_force.go:162-195 | eviction frees a slot in every order of the visit exactly unless the empty address ranks strictly first among records all of its kind |
| `LoginTheorems.EmptyAddressStopsTracking` | server/service/auth/brute_force.go:107-119 | a run of failed logins from an empty table to 3000 records at whose end the failure of a new address leaves no trace |
| `LoginTheorems.TableStaysSmall` | server/service/auth/brute_force.go:107-119 | the table never exceeds 3000 records |
| `LoginTheorems.EveryFailureIsTracked` | server/service/auth/brute_force.go:107-119 | in a run without empty addresses the "not tracking" branch is never taken |
| `LoginTheorems.LockoutHolds` | server/service/auth/brute_force.go:67-138 | a lockout blocks until its end, and later failures never shorten it, unless it is cleared or evicted |
| `LockoutTheorems.LockoutBegins` | server/service/auth/brute_force.go:95-138 | an address that fails the configured number of times in a row, each at most one lockout after the one before, is locked out from then on for one lockout |
| `LockoutTheorems.LockedOutFor` | server/service/auth/brute_force.go:67-138 | and every login of it is refused for that long, unless the lockout is cleared or evicted |
| `LockoutTheorems.LockoutNeedsFailures` | server/service/auth/brute_force.go:67-138 | only such failures lock out, and the lockout ends one lockout after the last of them |
| `LockoutTheorems.ClearingForgets` | server/service/auth/brute_force.go:211-221 | a successful login wipes its own record alone, and the next failure is the first |
| `LockoutTheorems.CleanupDropsIff` | server/service/auth/brute_force.go:41-53 | the cleanup drops a record exactly if its lockout is over or, without one, its last failure is over half an hour old |
| `LockoutTheorems.OffMeansOff` | server/service/auth/brute_force.go:67-71 | without a lockout duration nothing is recorded and nobody is refused |
| `LoginTheorems.LiveLockoutsGoLast` | server/service/auth/brute_force.go:181-195 | a live lockout is evicted only when no record is expired or merely counting, and then it ends first |

## Left out

- Edits of the mode file by anyone but the manager: the manager is the only writer, as its lock assumes.
- `ControlMode.ModeManager.Status`: the last error and the time of the last change, which are only reported.
- Wrap-around of counters that would take centuries to reach it: operation and subscriber numbers, generations, revisions and the drop count are unbounded, except the token version, which wraps.
- Real time: clocks do not go back and timers may fire at any moment; nothing is claimed about how long something takes.
- The `allow` check of a reservation: it is one choice at the second check, because nothing depends on the first.
- The status read inside a reservation that joins an active session: it is one step with the join, under the session's mutex.
- The mutex that keeps manual writes apart (`server/service/inputcontrol/coordinator.go:223-230`): writes of one session are already in order.
- Panics in callbacks and hooks: the deferred unlocks that answer them are not modelled.
- The position that an absolute release carries: a release presses nothing wherever it points.
- The keyboard-LED worker of the websocket client and all HTTP, websocket and JSON plumbing.
- Unsubscribing from the H.264 store, and the registrations of unknown modes, which do nothing.
- The order of capture statuses between the stream store and the mailbox: its subscribers run outside the lock, so nothing holds end to end.
- The read lock of `isLive`, which only reads the flag.
- What `SwitchIfWithCleanup` returns for a switch that comes to nothing: its reasons are one outcome.
- A failed `io.CopyN`, close or truncated file in the archive: all are the one failed write of that entry, and what a failed write leaves behind is not described.
- The tar and gzip readers: an archive is the list of headers they deliver, and both passes read the same file.
- Bytes that are not UTF-8 in a resolver file, and the parsing and printing of addresses, which are a parameter.
- `Movement.AbsoluteCoordinate`: real arithmetic in place of floating point.
- `Movement.CoordinatesAreMonotone`: real arithmetic in place of floating point.
- The German and French layouts: some of their keys carry two characters, so typing cannot be read back.
- The mirror of the system account for older releases, bcrypt and the random numbers, which are parameters of a call.
- `AccountTheorems.RevokedStaysRevoked`: a user who is deleted and created again gets a random version, about which nothing is claimed.
- `Logins.LoginGuard.RecordLoginFailure`: the conversion of the configured seconds to nanoseconds, and the saturation of time differences.
- PicoClaw's processes and its session lock: a PicoClaw action is a thread that writes under its lease.
- A tool executor without a mode manager or without a coordinator, which `toolExecutor.begin` tolerates.
- What the jiggler writes, and manual writes as steps of their own: the workers' logs have them.
- `HeldLane.LaneCovers`: when the queue is full; an eviction may strike any report that no write was tried for.
- The EDID tool, GPIO, free-space arithmetic, Wake-on-LAN and the web interface.
