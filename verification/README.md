# Verified model of the gnirehtet-vd host

gnirehtet-vd keeps a headset's VPN on a wired ADB link: one authenticated control lane, a relay gate
in front of the proxied flows, a monitor that rebuilds ADB reverse mappings within bounds, and byte
streams that must survive races. This project models that core in Dafny, one module per component,
and proves what every run of it keeps.

| file | component |
|---|---|
| `TransportRecovery.dfy` | recovery generations, attempts, control timers and the one-shot rearm |
| `StopDrain.dfy` | explicit Stop against mapping work already in flight |
| `AndroidLiveness.dfy` | restart backoff of a wedged headset service |
| `RelayGate.dfy` | gate, leases and the eligibility controller |
| `Lifecycle.dfy`, `ControlLane.dfy`, `StopEndings.dfy`, `LaneHistory.dfy` | the host lifecycle, the control-lane protocol over it, how its stops end or do not, and what every run of it makes of the lifecycle |
| `CandidateSettlement.dfy` | choosing one of several duplicate client connections |
| `QueueBudget.dfy`, `ReplyWriter.dfy`, `HevUdp.dfy` | UDP relay: byte budgets, batching writer, frame codec |
| `TrackDevices.dfy`, `RotatingLog.dfy`, `Gnr4.dfy` | device-tracking decoder, bounded log, control codec and session ids |
| `AdbStart.dfy` | the ADB start transaction against an arbitrary executor |
| `IpPackets.dfy` | the legacy Java packet reassembler |
| `Base.dfy`, `Wire.dfy` | shared values and big-endian integers |

Concurrent parts are transition systems on values: a step is one section the source runs under a
lock, one atomic instruction, or one local action between two await points, and a run is any
sequence of events (an event that is not possible where it occurs changes nothing). Objects that the
source updates in place are classes whose methods are proved equal to those steps. The clock, socket
results, ADB replies, UTF-8 validity and text classification are parameters, so every statement holds
for all of them. 64-bit wrap-around and saturation are written out in the relay gate; the recovery
generations are unbounded. `dafny verify dfyconfig.toml` checks everything.

## Where the code differs from what one might expect

- Three early returns skip the cleanup (control.rs:428, 490-491 and 626-630): a frame of another
  session, an answer that cannot be written, a STOP that cannot be written. Taken while Stopping, each
  leaves the lifecycle there and every later connection refused, unless a superseded connection has
  already timed out or is caught inside a poll of its select with its own stop pending; any other
  superseded connection finds itself cancelled first: `StopEndings.EarlyExitWedgesTheLane`,
  `StopEndings.SupersededRescuers`, `StopEndings.StoppingForeverIffWedged`.
- The stop-deadline arm has no epoch check (control.rs:632-639). A superseded connection can therefore
  fail a newer connection's open stop, and can turn an acknowledged stop, already answered Ok, from
  Stopped into Error: `StopEndings.DeadlineHitsAnotherIffSuperseded`,
  `StopEndings.LateDeadlineFailsANewerStop`.
- The drain's comment promises to wait for one bounded mapping command (runtime.rs:999-1003). It waits
  for one call, which may be a whole reinstall or a closure poll: `StopDrain.ManyCommandsIff`.
- The bound of four rebuilds rests on the auto-rearm marker being stored before the next rearm task
  reads it (runtime.rs:723-742): `TransportRecovery.RebuildsAreBounded`,
  `TransportRecovery.SecondRearmIff`, `TransportRecovery.ALateStoreCostsTwoMore`.
- At the saturated generation a lease says no more than that the gate is enabled now:
  `RelayGate.LeaseAtTheCeilingMeansEnabled`, `RelayGate.LeaseAtTheCeilingIsBlind`.
- In text mode the device decoder accepts a long line or not depending on where chunks end, exactly
  when the unended line at some chunk boundary is over the bound: `TrackDevices.ChunksAcceptedIff`.
- Connected is reachable without STARTED, exactly by a transport loss while preparing followed by a
  heartbeat: `Lifecycle.ConnectedWithoutStarted`.
- The Java reassembler promises room for one full packet at any time
  (IPPacketOutputStream.java:36 and 58). That holds exactly until a header of another IP version stands
  where a packet begins: the buffer is cleared and then compacted, which leaves it full, and the next
  write that carries anything is refused. A zero total length makes the loop endless: `IpPackets.IPPacketOutputStream.Write`,
  `IpPackets.IPPacketOutputStream.JamWithOtherVersion`, `IpPackets.IPPacketOutputStream.Sink`.

## Model

| member | source | states |
|---|---|---|
| `TransportRecovery.ReachableInv` | host-rust/crates/gnirehtet-vd/src/runtime.rs:696-954 | In every interleaving of the monitor loop, its sleeping timers, rearm tasks, host resume, USB changes, authenticated control and Stop: at most two attempts, the auto-rearm marker never runs ahead of the generation, a rebuild in flight of the current generation owns the state, and every timer of the current generation belongs to the rebuild now awaiting control or already recovered |
| `TransportRecovery.StepKeepsInv` | host-rust/crates/gnirehtet-vd/src/runtime.rs:696-954 | Each single step keeps that invariant |
| `TransportRecovery.TimeoutActsOnItsOwnAttempt` | host-rust/crates/gnirehtet-vd/src/runtime.rs:927-954 | A control timeout changes the recovery only when the latest rebuild is the one that armed it, although attempt numbers restart within a generation, and no second timer of that generation is left |
| `TransportRecovery.FinishSettlesItsOwnAttempt` | host-rust/crates/gnirehtet-vd/src/runtime.rs:875-898 | While a rebuild runs in an unchanged generation, generation, attempt and state are still its own, so finishing may check the generation alone; this rests on the one sequential monitor loop |
| `TransportRecovery.StepPaysForRebuilds` | host-rust/crates/gnirehtet-vd/src/runtime.rs:838-873 | Potential argument: (2 - attempt) + (2 unless this generation is the automatic rearm) pays for each rebuild; an external event restores it to at most 4, and only a second rearm of one generation adds to it, 2 |
| `TransportRecovery.RebuildsArePaidFor` | host-rust/crates/gnirehtet-vd/src/runtime.rs:696-954 | Over any run, however late stores to the auto-rearm marker are: rebuilds begun plus remaining potential are at most the initial potential plus four per external event plus two per second rearm |
| `TransportRecovery.RebuildsAreBounded` | host-rust/crates/gnirehtet-vd/src/runtime.rs:1265-1457 | Between consecutive external events (host resume, USB reconnect, device absence, authenticated rearm) at most four mapping rebuilds begin, and over a whole run at most four per external event, when no store to the marker is under way as a rearm task of the current generation reads it; without that, only second rearms add, at most two each |
| `TransportRecovery.FourRebuildsAreReached` | host-rust/crates/gnirehtet-vd/src/runtime.rs:718-746 | The bound is tight on such runs: two failed rebuilds, the one automatic rearm and two more make four |
| `TransportRecovery.PromptMeansOnce` | host-rust/crates/gnirehtet-vd/src/runtime.rs:793-836 | On such runs no generation made by an automatic rearm is rearmed again, whatever else interleaves with the stores and locked sections |
| `TransportRecovery.SecondRearmIff` | host-rust/crates/gnirehtet-vd/src/runtime.rs:718-746 | A rearm task makes a second rearm exactly when it fires on a generation made by a rearm and does not find the marker on it |
| `TransportRecovery.ALateStoreCostsTwoMore` | host-rust/crates/gnirehtet-vd/src/runtime.rs:741-742 | A run without external events in which a late store to the marker leads to six rebuilds |
| `TransportRecovery.AdbHealthMonitor.NotifyTransportRecovery` | host-rust/crates/gnirehtet-vd/src/runtime.rs:701-716 | New generation, attempt zero, pending, trigger recorded, auto-rearm marker cleared |
| `TransportRecovery.AdbHealthMonitor.NotifyHostResume` | host-rust/crates/gnirehtet-vd/src/runtime.rs:696-699 | Forgets a pending USB reconnect and starts a host-resume generation |
| `TransportRecovery.AdbHealthMonitor.NotifyUsbReconnectedIfNeeded` | host-rust/crates/gnirehtet-vd/src/runtime.rs:964-970 | Starts a USB generation exactly when a disconnect was noted, consuming the note |
| `TransportRecovery.AdbHealthMonitor.NoteUsbDisconnected` | host-rust/crates/gnirehtet-vd/src/runtime.rs:956-962 | Notes the loss unless a host-resume recovery is under way |
| `TransportRecovery.AdbHealthMonitor.RearmFailedTransport` | host-rust/crates/gnirehtet-vd/src/runtime.rs:718-746 | Rearms exactly when not stopping, the generation is current, failed and not itself a rearm; marks the new generation as the rearm |
| `TransportRecovery.AdbHealthMonitor.RearmFromAuthenticatedControl` | host-rust/crates/gnirehtet-vd/src/runtime.rs:748-777 | From a failed recovery only: a new generation that awaits control at attempt one, marker cleared |
| `TransportRecovery.AdbHealthMonitor.WaitForRecoveryDevice` | host-rust/crates/gnirehtet-vd/src/runtime.rs:848-854 | Resets the attempt count, from any state |
| `TransportRecovery.AdbHealthMonitor.BeginAttempt` | host-rust/crates/gnirehtet-vd/src/runtime.rs:856-873 | Begins exactly from pending or waiting below two attempts; the fields change even when no trigger is recorded |
| `TransportRecovery.AdbHealthMonitor.FinishAttempt` | host-rust/crates/gnirehtet-vd/src/runtime.rs:875-898 | Ignores another generation; success awaits control, failure retries below two attempts and otherwise fails |
| `TransportRecovery.AdbHealthMonitor.CompleteAuthenticated` | host-rust/crates/gnirehtet-vd/src/runtime.rs:900-925 | Completes exactly from awaiting control with a trigger; what a completion then means for every later run is AuthenticationEndsTheRecovery |
| `TransportRecovery.AdbHealthMonitor.ExpireControl` | host-rust/crates/gnirehtet-vd/src/runtime.rs:927-954 | Acts only on its own generation and attempt while awaiting control; retries or fails |
| `TransportRecovery.AuthenticationEndsTheRecovery` | host-rust/crates/gnirehtet-vd/src/runtime.rs:900-925 | Authenticated control while awaiting it recovers, and from then until the next external event no timer, rearm task or monitor pass touches the recovery and no rebuild begins |
| `TransportRecovery.PassIsEnteredIff` | host-rust/crates/gnirehtet-vd/src/runtime.rs:1274-1281 | A monitor pass is entered exactly on a recovery that is pending, waiting, rebuilding or failed, while Stop has not begun |
| `TransportRecovery.AbsenceRestoresTheAttempts` | host-rust/crates/gnirehtet-vd/src/runtime.rs:848-854 | Device absence gives both attempts back, from failed too, and the next pass with a device begins a rebuild |
| `TransportRecovery.RebuildEnds` | host-rust/crates/gnirehtet-vd/src/runtime.rs:875-898 | In every reachable state a rebuild that is still its generation's ends by its result: success awaits control and arms its own timer, a first failure is retried, a second one fails the recovery and asks for a rearm |
| `TransportRecovery.TimeoutMustAct` | host-rust/crates/gnirehtet-vd/src/runtime.rs:927-954 | In every reachable state the timer of the rebuild that awaits control does act: pending after the first attempt, failed and a rearm request after the second |
| `TransportRecovery.FailureIsRearmed` | host-rust/crates/gnirehtet-vd/src/runtime.rs:779-836 | A failed generation that asked for a rearm and is not one itself gets a new pending generation with its marker stored |
| `TransportRecovery.RearmsComeFromFailures` | host-rust/crates/gnirehtet-vd/src/runtime.rs:779-836 | In every run, automatic rearms made plus those still owed are at most the generations whose attempts ran out: no failure is rearmed twice, whatever its request, timer and locked section are interleaved with |
| `TransportRecovery.PassComesToAnEnd` | host-rust/crates/gnirehtet-vd/src/runtime.rs:1274-1400 | No pass keeps the loop: without the device it ends at once, with it after at most one rebuild; a rebuild is given up early exactly when a stop or a newer generation overtook it, and that changes nothing of the recovery |
| `TransportRecovery.ResumeStartsAGeneration` | host-rust/crates/gnirehtet-vd/src/runtime.rs:696-716 | A host resume always starts a pending generation of its own |
| `TransportRecovery.UsbReturnStartsAGeneration` | host-rust/crates/gnirehtet-vd/src/runtime.rs:956-970 | A lost and returned device starts one exactly when no host-resume recovery is under way |
| `TransportRecovery.AuthenticatedRearmRecovers` | host-rust/crates/gnirehtet-vd/src/runtime.rs:748-777 | Control that authenticates on a failed recovery puts it to awaiting control in a new generation, where it completes |
| `TransportRecovery.StopEndsTheRebuilds` | host-rust/crates/gnirehtet-vd/src/runtime.rs:987-1003 | Over any run after the stop flag, at most the pass already past its reads begins a rebuild, and the flag stays |
| `StopDrain.DrainedMeansSilent` | host-rust/crates/gnirehtet-vd/src/runtime.rs:987-1003 | For any number of reconcile, recovery and restart runs in any interleaving with Stop: after the flag is set and a drain has returned no command of these runs reaches ADB and none is running or about to; between flag and drain at most one blocking call starts and everything issued belongs to one call |
| `StopDrain.StepKeepsInv` | host-rust/crates/gnirehtet-vd/src/runtime.rs:1492-1535 | The lock holder is the only run inside its critical section, and a drained host has nobody past its flag check |
| `StopDrain.ManyCommandsIff` | host-rust/crates/gnirehtet-vd/src/runtime.rs:999-1003 | More than one command can follow the flag if and only if the call in flight is a closure poll or a reinstall with at least two of its commands to go: what Stop waits for is one call, not one bounded command |
| `StopDrain.ReinstallOutlastsTheFlag` | host-rust/crates/gnirehtet-vd/src/runtime.rs:1311-1323 | It happens: a recovery whose reinstall is running when Stop sets the flag |
| `StopDrain.DrainIsForever` | host-rust/crates/gnirehtet-vd/src/runtime.rs:2639-2661 | Nothing that happens after the drain undoes it |
| `StopDrain.OneCallMayStartLate` | host-rust/crates/gnirehtet-vd/src/runtime.rs:1311-1323 | A recovery that read the flag just before Stop set it does start its rebuild after the flag; only the drain makes Stop wait for it |
| `StopDrain.UndisturbedRunDoesItsWork` | host-rust/crates/gnirehtet-vd/src/runtime.rs:1492-1535 | Left alone, a reconcile, sleep check, recovery or restart takes the lock, makes all its calls in order and gives the lock back |
| `StopDrain.DrainCanReturn` | host-rust/crates/gnirehtet-vd/src/runtime.rs:999-1003 | In every reachable host with the flag set, the holder of the lock gives it up after the call it is in, however that ends, and the drain returns |
| `AndroidLiveness.BackoffIsGap` | host-rust/crates/gnirehtet-vd/src/runtime.rs:434-439 | The shift capped at eight doublings and saturating counter equals min(60 * 2^(n-1), 300) seconds for every n |
| `AndroidLiveness.RestartsBackOff` | host-rust/crates/gnirehtet-vd/src/runtime.rs:412-432 | In any run without Connected, restart n and the next are at least that gap apart |
| `AndroidLiveness.RestartsSpanTheirGaps` | host-rust/crates/gnirehtet-vd/src/runtime.rs:422-439 | So k + 1 restarts span at least the sum of the first k gaps |
| `AndroidLiveness.NoRestartSoonAfterAsleep` | host-rust/crates/gnirehtet-vd/src/runtime.rs:398-420 | No restart follows an asleep probe by less than ten seconds, whatever happens between |
| `AndroidLiveness.AwakeStaysAfter` | host-rust/crates/gnirehtet-vd/src/runtime.rs:394-410 | After an asleep probe every later restart time is at least the grace later, over any run |
| `AndroidLiveness.SilentAndAwakeRestarts` | host-rust/crates/gnirehtet-vd/src/runtime.rs:412-420 | Two awake probes in silence a grace apart restart the service if and only if the backoff has passed |
| `AndroidLiveness.RestartRemembers` | host-rust/crates/gnirehtet-vd/src/runtime.rs:1663-1676 | A restart records its own time and the next gap, and respects the previous one |
| `AndroidLiveness.InterruptionRestartsTheGrace` | host-rust/crates/gnirehtet-vd/src/runtime.rs:371-420 | Silence counts from the last interruption: no restart of any later run comes before the grace has passed since |
| `AndroidLiveness.ConnectionForgetsTheBackoff` | host-rust/crates/gnirehtet-vd/src/runtime.rs:371-410 | After a connection two awake probes a grace apart restart at once, however often it was restarted before; after an ineligible pass exactly if the backoff has passed |
| `AndroidLiveness.ProbesAreSpaced` | host-rust/crates/gnirehtet-vd/src/runtime.rs:394-432 | The pass after a probe probes again exactly when five seconds have passed, fifteen after an asleep one, counted from the restart if there was one |
| `RelayGate.LeaseIsValidIffNeverDisabled` | host-rust/crates/gnirehtet-vd/src/socks.rs:363-431 | A lease taken at generation g below the 64-bit ceiling is valid later if and only if the gate was enabled at every state in between, so a watcher of the latest coalesced state misses no disable-then-enable |
| `RelayGate.LeaseStep` | host-rust/crates/gnirehtet-vd/src/socks.rs:363-397 | One gate call keeps a valid lease exactly when the gate stays enabled; generations never go back |
| `RelayGate.LeaseAtTheCeilingMeansEnabled` | host-rust/crates/gnirehtet-vd/src/socks.rs:363-431 | At the saturated generation a lease is valid if and only if the gate is enabled now, whatever happened in between |
| `RelayGate.LeaseAtTheCeilingIsBlind` | host-rust/crates/gnirehtet-vd/src/socks.rs:363-397 | At the saturated generation the equivalence fails: disable then enable leaves the old lease valid |
| `RelayGate.GateCell.Enable` | host-rust/crates/gnirehtet-vd/src/socks.rs:364-374 | No-op when nothing changes, otherwise the new state with the generation moved |
| `RelayGate.GateCell.AwaitActivation` | host-rust/crates/gnirehtet-vd/src/socks.rs:376-385 | Only a disabled gate starts awaiting |
| `RelayGate.GateCell.InvalidateAndAwait` | host-rust/crates/gnirehtet-vd/src/socks.rs:387-398 | Disables and awaits in one generation move, without an inactive gap |
| `RelayGate.GateFollowsEligibility` | host-rust/crates/gnirehtet-vd/src/runtime.rs:483-654 | After any sequence of controller calls the gate is enabled exactly when the carrier is healthy and control authenticated; suspension excludes authentication, a pending loss implies it, enabled excludes awaiting |
| `RelayGate.RunKeepsInv` | host-rust/crates/gnirehtet-vd/src/runtime.rs:483-654 | The same, with 64-bit bounds, at every state of every run |
| `RelayGate.EpochCountsControlEvents` | host-rust/crates/gnirehtet-vd/src/runtime.rs:468-475 | The wrapping epoch counts exactly the calls that are control events |
| `RelayGate.StaleProbesChangeNothing` | host-rust/crates/gnirehtet-vd/src/runtime.rs:526-539 | A grace expiry or sleep probe that carries an epoch from before the latest control event changes nothing, for fewer than 2^64 events in between |
| `RelayGate.GraceExpiryActsIffNothingHappened` | host-rust/crates/gnirehtet-vd/src/runtime.rs:550-597 | The grace timer closes the gate if and only if no control event followed the degradation that armed it |
| `RelayGate.FlowSurvivesIffAlwaysEligible` | host-rust/crates/gnirehtet-vd/src/runtime.rs:483-654 | A flow admitted at some state still holds a valid lease later if and only if carrier and control stayed eligible at every state in between: no old flow leaks through |
| `RelayGate.StepMovesTheGateOnce` | host-rust/crates/gnirehtet-vd/src/runtime.rs:502-654 | Each controller call makes at most one gate call, so watchers see no intermediate state |
| `RelayGate.EligibilityController.Connected` | host-rust/crates/gnirehtet-vd/src/runtime.rs:502-514 | Authenticates, ends suspension and loss, opens the gate or awaits the carrier, as a step of the controller whose gate GateIsOpenIff tells from the calls |
| `RelayGate.EligibilityController.Suspend` | host-rust/crates/gnirehtet-vd/src/runtime.rs:516-524 | Drops authentication and invalidates the gate |
| `RelayGate.EligibilityController.SuspendIfEpoch` | host-rust/crates/gnirehtet-vd/src/runtime.rs:526-539 | The same exactly when the epoch is still current and control authenticated; reports it |
| `RelayGate.EligibilityController.Wake` | host-rust/crates/gnirehtet-vd/src/runtime.rs:541-548 | Ends suspension without authenticating |
| `RelayGate.EligibilityController.Degrade` | host-rust/crates/gnirehtet-vd/src/runtime.rs:550-569 | Arms one loss grace and returns the epoch its timer must carry; no second one while pending |
| `RelayGate.EligibilityController.InactiveIfEpoch` | host-rust/crates/gnirehtet-vd/src/runtime.rs:582-597 | Goes inactive exactly when nothing happened since that epoch |
| `RelayGate.EligibilityController.Inactive` | host-rust/crates/gnirehtet-vd/src/runtime.rs:599-617 | Both inactive forms |
| `RelayGate.EligibilityController.LoseCarrier` | host-rust/crates/gnirehtet-vd/src/runtime.rs:619-639 | Both carrier-loss forms |
| `RelayGate.EligibilityController.RestoreCarrier` | host-rust/crates/gnirehtet-vd/src/runtime.rs:641-653 | Reopens only when authenticated; a suspended controller keeps its gate |
| `RelayGate.GateIsOpenIff` | host-rust/crates/gnirehtet-vd/src/runtime.rs:483-654 | On the list of calls alone: the gate is enabled if and only if some connect has had no acting suspension, inactivity or carrier loss after it and no carrier loss comes after the last return of the carrier; with the like for suspended and awaiting |
| `RelayGate.FlagsMove` | host-rust/crates/gnirehtet-vd/src/runtime.rs:502-653 | What one call sets and clears of each flag and of the gate, both directions |
| `RelayGate.LossIsPendingIff` | host-rust/crates/gnirehtet-vd/src/runtime.rs:550-580 | A loss is pending exactly after a degradation of authenticated control that no control event has followed |
| `RelayGate.EveryChangeMovesTheGeneration` | host-rust/crates/gnirehtet-vd/src/socks.rs:363-398 | Below the ceiling the generation moves by one exactly when the gate changes |
| `ControlLane.ReachableInv` | host-rust/crates/gnirehtet-vd/src/control.rs:309-681 | Over every interleaving of handlers, replacements, commands, deadlines and exits: epochs are admission order, a pending stop has STOP on the wire unless it is being written, and a lifecycle in Stopping is owned by the lane's current connection |
| `ControlLane.StepKeepsInv` | host-rust/crates/gnirehtet-vd/src/control.rs:309-681 | Each step keeps that invariant |
| `ControlLane.StepConservesCommands` | host-rust/crates/gnirehtet-vd/src/control.rs:605-640 | No step creates, duplicates or loses a stop command; only a submission adds one |
| `ControlLane.EveryCommandIsInOnePlace` | host-rust/crates/gnirehtet-vd/src/control.rs:699-719 | Over every run each submitted stop is in exactly one place: on the lane, with one handler, or answered |
| `ControlLane.StopIsAnsweredAtMostOnce` | host-rust/crates/gnirehtet-vd/src/control.rs:750-789 | Each stop is answered at most once, through any exit |
| `ControlLane.EndedHandlersLeaveNothingUnanswered` | host-rust/crates/gnirehtet-vd/src/control.rs:785-789 | Once every handler has ended and the lane is empty, every stop ever submitted has an answer: no handler ends with its pending stop unanswered |
| `ControlLane.OkMeansAcknowledgedStop` | host-rust/crates/gnirehtet-vd/src/control.rs:501-513 | A stop is answered Ok by exactly the step in which the current connection, holding that stop, receives STOPPED while Stopping (both directions); STOP was written and the lifecycle moves to Stopped |
| `ControlLane.OwnerIsFixedWhileStopping` | host-rust/crates/gnirehtet-vd/src/control.rs:644-676 | While Stopping the active slot changes only by the owner's own cleanup, which fails the lifecycle and answers the stop with an error |
| `ControlLane.EpochsIncrease` | host-rust/crates/gnirehtet-vd/src/control.rs:319-338 | Epochs strictly increase with admission, and the lane only ever goes to the newest connection |
| `StopEndings.StoppingForeverIffWedged` | host-rust/crates/gnirehtet-vd/src/control.rs:309-681 | For every state in Stopping that keeps the lane invariant: the lifecycle is in Stopping in every later run if and only if the owner of the stop is gone and no handler can still time out, that is, none is failing the lifecycle, none has a stop pending at its select, and none that has not been told to leave has one pending on its way there |
| `StopEndings.WedgedForever` | host-rust/crates/gnirehtet-vd/src/control.rs:319-323 | A wedged lane keeps its lifecycle and owner and admits no connection under every sequence of events |
| `StopEndings.ReachableCancelled` | host-rust/crates/gnirehtet-vd/src/control.rs:319-338 | In every reachable lane each handler that still runs without owning the lane has been cancelled, and the select polls cancellation first |
| `StopEndings.SupersededRescuers` | host-rust/crates/gnirehtet-vd/src/control.rs:397-403 | So a superseded connection can rescue the lifecycle exactly when it has already timed out or was caught inside a poll of its select with its stop pending |
| `StopEndings.PendingIsNotEnough` | host-rust/crates/gnirehtet-vd/src/control.rs:397-403 | A run that ends wedged although a superseded connection still holds a stop while it writes an answer |
| `StopEndings.EarlyExitsWhileStopping` | host-rust/crates/gnirehtet-vd/src/control.rs:428-630 | While Stopping its owner can end without cleanup in exactly three ways: STOP cannot be written, an answer cannot be written, a frame carries another session |
| `StopEndings.EarlyExitWedgesTheLane` | host-rust/crates/gnirehtet-vd/src/control.rs:642-679 | After any of them the lifecycle stays in Stopping for ever if and only if no superseded connection is left that can still time out |
| `StopEndings.FailedStopWriteWedgesTheLane` | host-rust/crates/gnirehtet-vd/src/control.rs:626-630 | That equivalence for a STOP that cannot be written |
| `StopEndings.FailedReplyWedgesTheLane` | host-rust/crates/gnirehtet-vd/src/control.rs:490-491 | That equivalence for an answer, such as a heartbeat echo, that cannot be written while Stopping |
| `StopEndings.StaleSessionWedgesTheLane` | host-rust/crates/gnirehtet-vd/src/control.rs:428 | That equivalence for a frame of another session while Stopping |
| `StopEndings.EveryEarlyExitIsReached` | host-rust/crates/gnirehtet-vd/src/control.rs:309-681 | Each of the three wedges the first stop of a fresh lane: three runs |
| `StopEndings.ReachableHistory` | host-rust/crates/gnirehtet-vd/src/control.rs:501-513 | In every reachable lane, once a stop has begun the lifecycle is Stopping, Stopped or Error, and not Stopped while the current connection is still in a stop |
| `StopEndings.DeadlineHitsAnotherIffSuperseded` | host-rust/crates/gnirehtet-vd/src/control.rs:632-639 | In every reachable lane, a connection whose stop timed out ends a lifecycle that is not its own stop if and only if it is no longer current and the lifecycle has not failed already: another's open stop in Stopping, an acknowledged stop in Stopped; in Error only the reason and heartbeat change |
| `StopEndings.LifecycleChangesAreAttributed` | host-rust/crates/gnirehtet-vd/src/control.rs:404-676 | In every reachable lane each lifecycle change is a carrier loss, a frame, tick, command or cleanup of the current connection, or a stop deadline: on its own stop or a failed lifecycle while current, otherwise exactly as just said; that each of these does take effect is LaneHistory.LifecycleIsItsHistory |
| `StopEndings.HitStopIsNeverOk` | host-rust/crates/gnirehtet-vd/src/control.rs:770-789 | A stop that is open when a late deadline fails the lifecycle is not answered Ok in any later run |
| `StopEndings.LateDeadlineFailsANewerStop` | host-rust/crates/gnirehtet-vd/src/control.rs:632-639 | Both happen: a run in which the late deadline ends a newer connection's open stop, and one in which it turns an acknowledged stop, already answered Ok, from Stopped into Error |
| `LaneHistory.LifecycleIsItsHistory` | host-rust/crates/gnirehtet-vd/src/control.rs:309-681 | After any run the lifecycle is what a start followed by the lane's history gives, where the history is told from the events: every frame and tick heard by the current connection at its select, every accepted stop, cleanup, deadline and carrier loss takes effect, and nothing else does |
| `LaneHistory.StartedConnects` | host-rust/crates/gnirehtet-vd/src/control.rs:430-450 | In every reachable lane a valid STARTED of the current connection in Preparing, Connected or Degraded gives Connected with this heartbeat time |
| `LaneHistory.ActiveSlotMoves` | host-rust/crates/gnirehtet-vd/src/control.rs:319-338 | The active slot is taken by an admitted HELLO with the next epoch, given up by its owner's cleanup, and moves in no other way |
| `LaneHistory.HelloIsAdmitted` | host-rust/crates/gnirehtet-vd/src/control.rs:319-352 | In every reachable lane outside Stopping a HELLO becomes current, the connection before it is told to leave, and once HELLO_ACK is written it stands at its select |
| `LaneHistory.SubmitQueues` | host-rust/crates/gnirehtet-vd/src/control.rs:109-130 | A submitted stop waits at the end of the lane while there is room for it |
| `LaneHistory.StopIsCarriedThrough` | host-rust/crates/gnirehtet-vd/src/control.rs:605-631 | The whole transaction: the oldest stop is taken, the lifecycle goes to Stopping, STOP is written, STOPPED answers it Ok and the lifecycle is Stopped |
| `LaneHistory.OtherStopsAreRefused` | host-rust/crates/gnirehtet-vd/src/control.rs:605-625 | A second stop, an expired one, or one the lifecycle cannot take is answered with an error at once and the connection goes back to its select |
| `LaneHistory.UnacknowledgedStopFails` | host-rust/crates/gnirehtet-vd/src/control.rs:632-676 | A stop that times out, and one whose connection is lost, is answered with an error and the lifecycle is in Error |
| `LaneHistory.SupersededPutsItBack` | host-rust/crates/gnirehtet-vd/src/control.rs:699-719 | A superseded connection puts the stop it took at the end of the lane and leaves |
| `LaneHistory.ResetEndsTheConnection` | host-rust/crates/gnirehtet-vd/src/control.rs:158-166 | A transport reset makes the current connection leave, clean up and free the lane, with the lifecycle's transport lost |
| `LaneHistory.LeavesTheSelect` | host-rust/crates/gnirehtet-vd/src/control.rs:399-441 | A cancelled connection leaves, so does one that is no longer current when it hears a tick or a frame, and one whose peer closed or broke the protocol |
| `LaneHistory.RefusedFrameEndsTheHandler` | host-rust/crates/gnirehtet-vd/src/control.rs:428-447 | A frame of another session and one the lifecycle refuses end the handler on the spot: its stop is answered with an error, and neither the lifecycle nor the active slot is cleaned up |
| `LaneHistory.AnswersTheFrame` | host-rust/crates/gnirehtet-vd/src/control.rs:430-500 | A wake, a heartbeat, a suspension and a status request are answered; the other accepted frames leave the connection at its select unless it was told to leave |
| `Lifecycle.ReachableIsValid` | host-rust/crates/gnirehtet-vd/src/state.rs:46-170 | In every reachable state Connected has a heartbeat time, fewer than three misses and no reason; Stopped is the initial machine |
| `Lifecycle.OnlyAnAcknowledgedStopEndsASession` | host-rust/crates/gnirehtet-vd/src/state.rs:144-164 | After begin_start, and without a second one, a run reaches Stopped or loses the session if and only if it contains an accepted begin_stop later followed by stopped while Stopping throughout |
| `Lifecycle.StoppingHasAnOrigin` | host-rust/crates/gnirehtet-vd/src/state.rs:144-154 | Whenever Stopping, an accepted begin_stop came earlier and the machine has been Stopping since |
| `Lifecycle.SuspensionLastsUntilWakeStopOrFailure` | host-rust/crates/gnirehtet-vd/src/state.rs:134-142 | A suspended lifecycle stays suspended through a run if and only if the run holds no accepted peer_started, begin_stop or fail |
| `Lifecycle.TickDegradesExactlyOnThreeMisses` | host-rust/crates/gnirehtet-vd/src/state.rs:107-121 | A tick degrades a connected lifecycle exactly when three intervals have passed without a heartbeat |
| `Lifecycle.ConnectedWithoutStarted` | host-rust/crates/gnirehtet-vd/src/state.rs:67-132 | After begin_start, with no second start and no STARTED, a run reaches Connected if and only if it loses the transport while still preparing, for a reason that is not the suspension, and then accepts a heartbeat with the lifecycle degraded and not suspended at every state between |
| `Lifecycle.ThreeStepsConnect` | host-rust/crates/gnirehtet-vd/src/state.rs:85-132 | The shortest such run: preparing, transport loss, heartbeat |
| `Lifecycle.StateMachine.Begin` | host-rust/crates/gnirehtet-vd/src/state.rs:57-65 | begin_start on the five fields in place; refusal changes nothing |
| `Lifecycle.StateMachine.Started` | host-rust/crates/gnirehtet-vd/src/state.rs:67-83 | peer_started likewise, with the session check first |
| `Lifecycle.StateMachine.Beat` | host-rust/crates/gnirehtet-vd/src/state.rs:85-105 | heartbeat likewise; a suspended machine stays suspended |
| `Lifecycle.StateMachine.Advance` | host-rust/crates/gnirehtet-vd/src/state.rs:107-121 | tick likewise |
| `Lifecycle.StateMachine.LoseTransport` | host-rust/crates/gnirehtet-vd/src/state.rs:123-132 | transport_lost likewise; a suspension keeps its reason |
| `Lifecycle.StateMachine.Suspend` | host-rust/crates/gnirehtet-vd/src/state.rs:134-142 | peer_suspended likewise |
| `Lifecycle.StateMachine.Stop` | host-rust/crates/gnirehtet-vd/src/state.rs:144-154 | begin_stop likewise |
| `Lifecycle.StateMachine.FinishStop` | host-rust/crates/gnirehtet-vd/src/state.rs:156-164 | stopped likewise |
| `Lifecycle.StateMachine.Break` | host-rust/crates/gnirehtet-vd/src/state.rs:166-170 | fail likewise |
| `Lifecycle.StateIsTheLastEntered` | host-rust/crates/gnirehtet-vd/src/state.rs:46-170 | The state after any run is the one whose guard was met last, for all six states, told from guards written out separately |
| `Lifecycle.EntersOrStays` | host-rust/crates/gnirehtet-vd/src/state.rs:46-170 | One transition enters a state exactly when that state's guard holds, and otherwise stays |
| `Lifecycle.FieldsFollow` | host-rust/crates/gnirehtet-vd/src/state.rs:46-170 | Session, heartbeat time, missed intervals and reason after every transition |
| `Lifecycle.BeatingPeerStaysConnected` | host-rust/crates/gnirehtet-vd/src/state.rs:85-121 | Over any run of beats and ticks a connected peer stays connected exactly as long as no tick finds it three seconds silent, and the next beat connects it again |
| `CandidateSettlement.SettleCandidates` | host-rust/crates/gnirehtet-vd/src/socks.rs:995-1142 | For every sequence of joins, reads, partial writes, closes and clock values: it settles in exactly the first round that calls for it, with a good choice on the pool those rounds produce; the replay stays a bounded prefix of the Streamer's bytes; a loop head at or after the give-up time always settles |
| `CandidateSettlement.FlowIsExact` | host-rust/crates/gnirehtet-vd/src/socks.rs:788-815 | End to end the kept client is sent exactly the Streamer's bytes from byte 0, the Streamer exactly that client's bytes from byte 0 and nobody else's, and the reported totals are those lengths |
| `CandidateSettlement.ChoiceIsGood` | host-rust/crates/gnirehtet-vd/src/socks.rs:972-993 | What was delivered to the chosen client plus the suffix owed to it is the replay, and its prefix is its own first bytes |
| `CandidateSettlement.AtLoopHead` | host-rust/crates/gnirehtet-vd/src/socks.rs:1021-1059 | The exact condition for settling at a loop head; past the give-up time it always settles; the decision deadline is fixed once |
| `CandidateSettlement.OnReadable` | host-rust/crates/gnirehtet-vd/src/socks.rs:1108-1129 | A readable client settles exactly when it delivers bytes; otherwise it is dropped unless it would block |
| `CandidateSettlement.OnEvent` | host-rust/crates/gnirehtet-vd/src/socks.rs:1061-1140 | Which events settle, and that the others change the pool as specified |
| `CandidateSettlement.Turn` | host-rust/crates/gnirehtet-vd/src/socks.rs:1012-1141 | One turn of the loop: exactly when it settles, that the loop head has the first word, and which client a data event keeps |
| `CandidateSettlement.PoolAfter` | host-rust/crates/gnirehtet-vd/src/socks.rs:995-1142 | The pool after any number of rounds: every client has been sent a prefix of the replay and every candidate knows its length |
| `CandidateSettlement.JoinKeepsPool` | host-rust/crates/gnirehtet-vd/src/socks.rs:1013-1020 | Late joiners start from byte 0 |
| `CandidateSettlement.UpstreamKeepsPool` | host-rust/crates/gnirehtet-vd/src/socks.rs:1093-1107 | Reading upstream keeps the replay a prefix of the Streamer's bytes within the limit and the accounts of all clients; how long that prefix is, is ReplayIsWhatWasRead |
| `CandidateSettlement.WritableKeepsPool` | host-rust/crates/gnirehtet-vd/src/socks.rs:1130-1139 | A partial write sends the next bytes of the replay to that client and to no other |
| `CandidateSettlement.DropKeepsPool` | host-rust/crates/gnirehtet-vd/src/socks.rs:1108-1139 | Dropping a client leaves the others' accounts alone |
| `CandidateSettlement.ReplayIsWhatWasRead` | host-rust/crates/gnirehtet-vd/src/socks.rs:1093-1107 | After any rounds the replay is the Streamer's first k bytes, k what the reads moved under the limits, and upstream counts as closed exactly when a read before the limit moved nothing or broke |
| `CandidateSettlement.WriteDelivers` | host-rust/crates/gnirehtet-vd/src/socks.rs:1130-1139 | An accepted write sends its candidate the next bytes of the replay, as many as were accepted, and nobody else anything; accepted in full, it has been sent the whole replay |
| `CandidateSettlement.ArrivalsAreCounted` | host-rust/crates/gnirehtet-vd/src/socks.rs:1012-1020 | Every socket that joined is counted, the first one included |
| `CandidateSettlement.JoinersAreOpen` | host-rust/crates/gnirehtet-vd/src/socks.rs:1013-1020 | Joiners are appended in order of arrival and have been sent nothing |
| `CandidateSettlement.OpenAfterEvent` | host-rust/crates/gnirehtet-vd/src/socks.rs:1108-1139 | An event that settles nothing closes at most its own candidate and leaves every other open |
| `CandidateSettlement.DecisionIsFixedOnce` | host-rust/crates/gnirehtet-vd/src/socks.rs:1044-1048 | The decision deadline is a quarter second after the first head at which several candidates had all they could get, and nothing moves it |
| `CandidateSettlement.RoundSettlesIff` | host-rust/crates/gnirehtet-vd/src/socks.rs:1021-1059 | Exactly when a round settles, in clock terms, for no, one and several candidates and for a client's first bytes |
| `QueueBudget.CountersAreExact` | host-rust/crates/gnirehtet-vd/src/udp.rs:368-418 | Under any interleaving of atomic steps by any number of associations, each counter equals the live reservations plus half-done reserves and releases that count on it, stays within its limit, and no subtraction underflows |
| `QueueBudget.StepKeepsInv` | host-rust/crates/gnirehtet-vd/src/udp.rs:374-410 | Each atomic instruction keeps the accounts |
| `QueueBudget.DroppedReservationsLeaveNothing` | host-rust/crates/gnirehtet-vd/src/udp.rs:401-410 | Once every reservation is dropped all counters are zero |
| `QueueBudget.SumsAfterUpdate` | host-rust/crates/gnirehtet-vd/src/udp.rs:374-410 | Changing one reservation changes its sums by exactly that reservation |
| `QueueBudget.Counter.TryReserve` | host-rust/crates/gnirehtet-vd/src/udp.rs:412-418 | All or nothing, with checked addition against the limit |
| `QueueBudget.Reserve` | host-rust/crates/gnirehtet-vd/src/udp.rs:375-392 | Without interference both counters move by the bytes or neither does |
| `QueueBudget.ReservationIsAdmittedIff` | host-rust/crates/gnirehtet-vd/src/udp.rs:374-418 | In every reachable state a reservation is admitted exactly when it fits beside all that counts on its association and beside all that counts globally; refused globally it leaves no trace after its rollback |
| `QueueBudget.ReleaseGivesBack` | host-rust/crates/gnirehtet-vd/src/udp.rs:374-418 | Dropping a live reservation gives its bytes back to both its counters and to no other |
| `ReplyWriter.WriteReplies` | host-rust/crates/gnirehtet-vd/src/udp.rs:509-551 | The writer's output is exactly the in-order encodings of the replies it did not drop, no batch exceeds the bound, each batch's reservations sum to its length, and reading frames off the output gives that list back; it ends early exactly on a reply with no encoding and then leaves at most the batch being filled unwritten |
| `ReplyWriter.WriteGroup` | host-rust/crates/gnirehtet-vd/src/udp.rs:510-549 | The same for one wake of the writer; a reply without an encoding ends it and loses at most the batch being filled |
| `ReplyWriter.FlushIfFull` | host-rust/crates/gnirehtet-vd/src/udp.rs:526-534 | Flushes exactly when a non-empty batch would overflow, losing nothing |
| `ReplyWriter.AddTo` | host-rust/crates/gnirehtet-vd/src/udp.rs:535-543 | Data and reservation grow together |
| `ReplyWriter.StreamReadsBack` | host-rust/crates/gnirehtet-vd/src/udp.rs:127-149 | Reading self-delimiting frames off any concatenation of encodings gives the list back |
| `HevUdp.EncodedFrameReadsBack` | host-rust/crates/gnirehtet-vd/src/udp.rs:63-149 | What encodes decodes to the same value, and the stream reader consumes exactly that frame |
| `HevUdp.DecodedFrameReencodes` | host-rust/crates/gnirehtet-vd/src/udp.rs:96-125 | What decodes re-encodes to the same bytes |
| `HevUdp.ReaderTakesOneFrame` | host-rust/crates/gnirehtet-vd/src/udp.rs:127-149 | The reader accepts exactly the streams that start with an encoded frame (both directions) and returns that frame and the rest |
| `HevUdp.EncodableIff` | host-rust/crates/gnirehtet-vd/src/udp.rs:70-94 | Exactly which frames have an encoding, and that every encoding fits a write batch |
| `HevUdp.EndpointRoundTrip` | host-rust/crates/gnirehtet-vd/src/udp.rs:161-230 | An encoded address decodes to itself and says its own length, whatever follows |
| `HevUdp.DecodedEndpointReencodes` | host-rust/crates/gnirehtet-vd/src/udp.rs:188-230 | A decoded address re-encodes to exactly the bytes it consumed |
| `HevUdp.FramesAreSelfDelimiting` | host-rust/crates/gnirehtet-vd/src/udp.rs:127-149 | HEV frames meet what the reply writer assumes of a frame form |
| `HevUdp.WriteHevReplies` | host-rust/crates/gnirehtet-vd/src/udp.rs:509-551 | The reply writer's guarantee for HEV frames, and that replies from socket addresses within the UDP bound never end it |
| `HevUdp.FrameLayout` | host-rust/crates/gnirehtet-vd/src/udp.rs:63-125 | The exact bytes of every frame: payload length, header length, address type, address, port and payload, numbers most significant byte first |
| `HevUdp.DamageIsReported` | host-rust/crates/gnirehtet-vd/src/udp.rs:63-125 | A cut or extended frame is reported as what it is: truncated, a header length past the bytes, or a length mismatch with both lengths |
| `HevUdp.BadAddressIsReported` | host-rust/crates/gnirehtet-vd/src/udp.rs:161-230 | An unknown address type, a bad name length, a name that is not UTF-8 and a cut address are each reported as such |
| `TrackDevices.ChunkingIsInvisible` | host-rust/crates/gnirehtet-vd/src/runtime.rs:1884-1947 | If every push of a chunked stream succeeds, one push of the whole stream succeeds with the same updates and the same final decoder |
| `TrackDevices.PushSplits` | host-rust/crates/gnirehtet-vd/src/runtime.rs:1884-1947 | A successful push followed by another equals one push of both, also when the second fails |
| `TrackDevices.ChunksAcceptedIff` | host-rust/crates/gnirehtet-vd/src/runtime.rs:1884-1947 | For a stream that one push accepts, every push of a chunking succeeds if and only if the stream is not text or, at every chunk boundary, the bytes after the last newline are within the bound |
| `TrackDevices.TextDrainsIff` | host-rust/crates/gnirehtet-vd/src/runtime.rs:1923-1943 | A text decoder drains exactly when the bytes after its last newline are within the bound, and retains exactly those |
| `TrackDevices.LongLineDependsOnChunking` | host-rust/crates/gnirehtet-vd/src/runtime.rs:1939-1942 | From a fresh decoder: a long line is accepted together with its newline and refused when a chunk ends inside it |
| `TrackDevices.RunNeverRepeats` | host-rust/crates/gnirehtet-vd/src/runtime.rs:1918-1937 | Across all pushes no update repeats its neighbour, and the retained buffer stays bounded |
| `TrackDevices.DrainSettles` | host-rust/crates/gnirehtet-vd/src/runtime.rs:1884-1947 | A successful push leaves nothing decodable, repeats no update and remembers the last one |
| `TrackDevices.TakeTurn` | host-rust/crates/gnirehtet-vd/src/runtime.rs:1888-1945 | Every framed or text turn that makes progress consumes input, the mode is settled once, and waiting means a bounded buffer |
| `TrackDevices.TurnExtends` | host-rust/crates/gnirehtet-vd/src/runtime.rs:1888-1945 | Progress does not depend on what has not arrived yet |
| `TrackDevices.TrackDevicesDecoder.PushBytes` | host-rust/crates/gnirehtet-vd/src/runtime.rs:1884-1947 | The loop on the object's fields computes exactly the drained updates, decoder or error |
| `TrackDevices.TrackDevicesDecoder.TakeFrame` | host-rust/crates/gnirehtet-vd/src/runtime.rs:1905-1922 | One framed turn in place; which frames it takes is FrameIsTaken and BadFrameIsRefused |
| `TrackDevices.TrackDevicesDecoder.TakeLine` | host-rust/crates/gnirehtet-vd/src/runtime.rs:1924-1938 | One text line in place |
| `TrackDevices.TrackDevicesDecoder.DetectMode` | host-rust/crates/gnirehtet-vd/src/runtime.rs:1888-1901 | Mode detection in place |
| `TrackDevices.TrackDevicesDecoder.Note` | host-rust/crates/gnirehtet-vd/src/runtime.rs:1918-1921 | An update is emitted and remembered exactly when it differs from the last |
| `TrackDevices.FramedStreamDecodes` | host-rust/crates/gnirehtet-vd/src/runtime.rs:1884-1964 | Frames written by an encoder of its own, four hex digits of the length and the payload, decode in one push to exactly the availability of each payload without repeated neighbours, with nothing retained |
| `TrackDevices.FrameIsTaken` | host-rust/crates/gnirehtet-vd/src/runtime.rs:1905-1922 | A well-formed frame in front of anything is taken whole and reports its payload's availability unless it is the last one reported |
| `TrackDevices.FramesAreDecoded` | host-rust/crates/gnirehtet-vd/src/runtime.rs:1905-1922 | The same in front of any further bytes and after any earlier update |
| `TrackDevices.Hex4Reads` | host-rust/crates/gnirehtet-vd/src/runtime.rs:1949-1955 | Four hex digits denote the length most significant digit first |
| `TrackDevices.LengthIgnoresCase` | host-rust/crates/gnirehtet-vd/src/runtime.rs:1949-1955 | Lengths in upper and lower case are read alike |
| `TrackDevices.BadFrameIsRefused` | host-rust/crates/gnirehtet-vd/src/runtime.rs:1905-1922 | After any good frames a payload that is not UTF-8, a length over the bound and one that is not hex are each refused for what they are |
| `TrackDevices.SnapshotIsReported` | host-rust/crates/gnirehtet-vd/src/runtime.rs:1923-2012 | A text snapshot, header, device lines and blank line with either line ending, reports once whether any device is in state device and leaves the decoder between snapshots |
| `TrackDevices.ListingIsRead` | host-rust/crates/gnirehtet-vd/src/runtime.rs:1990-2012 | Inside a snapshot the first line in state device reports it and the others report nothing |
| `TrackDevices.FirstTabOpens` | host-rust/crates/gnirehtet-vd/src/runtime.rs:1999-2011 | Without a header the first line with a tab opens the snapshot, and what comes before is noise |
| `TrackDevices.LineEndingsAreIgnored` | host-rust/crates/gnirehtet-vd/src/runtime.rs:1982-1983 | However many carriage returns end a line, the parser sees the same line |
| `RotatingLog.ExportIsASuffix` | host-rust/crates/gnirehtet-vd/src/diagnostics.rs:192-207 | However many records are written, reading the files from highest to lowest index gives a contiguous in-order suffix of the record history ending with the newest; the byte counter is the size of file 0; each file is within the bound or holds one oversize record |
| `RotatingLog.WriteKeepsFaith` | host-rust/crates/gnirehtet-vd/src/diagnostics.rs:247-261 | One write keeps all of that |
| `RotatingLog.OlderFilesAreFull` | host-rust/crates/gnirehtet-vd/src/diagnostics.rs:247-251 | No record is given up early: however many are written, every older file could not have held the first record of the next one |
| `RotatingLog.RotationDropsTheOldest` | host-rust/crates/gnirehtet-vd/src/diagnostics.rs:263-300 | Rotation removes exactly the oldest file's records from what an export reads |
| `RotatingLog.AppendingToNewest` | host-rust/crates/gnirehtet-vd/src/diagnostics.rs:247-261 | An append adds exactly one record at the end of an export |
| `RotatingLog.PruningKeepsASuffix` | host-rust/crates/gnirehtet-vd/src/diagnostics.rs:306-329 | Reopening with a lower file count still reads a suffix of what was there |
| `RotatingLog.ReopeningIsFaithful` | host-rust/crates/gnirehtet-vd/src/diagnostics.rs:227-245 | A reopened log is faithful to all the directory still holds |
| `RotatingLog.TotalIsBounded` | host-rust/crates/gnirehtet-vd/src/diagnostics.rs:17-19 | Without oversize records the log is within count times bound |
| `RotatingLog.RotatingWriter.Open` | host-rust/crates/gnirehtet-vd/src/diagnostics.rs:227-245 | Zero bounds are refused; otherwise excess files are pruned and the counter is the size of file 0 |
| `RotatingLog.RotatingWriter.Rotate` | host-rust/crates/gnirehtet-vd/src/diagnostics.rs:263-300 | The renaming loop from the top moves every file one up and leaves a new empty file 0 |
| `RotatingLog.RotatingWriter.WriteRecord` | host-rust/crates/gnirehtet-vd/src/diagnostics.rs:247-261 | Rotates exactly when a non-empty file 0 would overflow, then appends |
| `RotatingLog.RotatingWriter.Export` | host-rust/crates/gnirehtet-vd/src/diagnostics.rs:192-207 | Reads the files from the highest index down |
| `RotatingLog.WriteIsExact` | host-rust/crates/gnirehtet-vd/src/diagnostics.rs:247-300 | One write, exactly: an export afterwards reads what it read before, without the oldest file if the record did not fit, followed by the record |
| `RotatingLog.SmallHistoryIsKept` | host-rust/crates/gnirehtet-vd/src/diagnostics.rs:247-261 | As long as a history fits into the newest file, all of it is exported |
| `AdbStart.Start` | host-rust/crates/gnirehtet-vd/src/adb.rs:676-750 | For every executor: START is issued at most once, on a woken ready device, and only right after a probe accepted as VPN-closed, a listing with no product mapping, the adds of SOCKS, UDP and control in that order and a listing with all three; any failure after the device checks has just attempted to remove all three; the outcome names the step that ended the transaction |
| `AdbStart.Quiesce` | host-rust/crates/gnirehtet-vd/src/adb.rs:804-822 | Graceful first, forced exactly when that could not be verified; ok exactly when the trace ends with an accepted closed probe, fine removals and a clean listing, and no kill was refused |
| `AdbStart.StopSession` | host-rust/crates/gnirehtet-vd/src/adb.rs:774-846 | Both stop forms end with the three removals and a listing; ok exactly when the VPN was seen closed, the removal went well and a forced request was accepted |
| `AdbStart.RemoveAllMappings` | host-rust/crates/gnirehtet-vd/src/adb.rs:1062-1099 | Every mapping gets a removal attempt whatever the earlier ones returned; ok exactly when each succeeded or was absent and the listing is clean |
| `AdbStart.VerifyVpnClosed` | host-rust/crates/gnirehtet-vd/src/adb.rs:1015-1047 | Polls at most the given number of retries, each earlier probe having seen it open; ok exactly when the last probe says closed |
| `AdbStart.AddMappings` | host-rust/crates/gnirehtet-vd/src/adb.rs:693-699 | Adds SOCKS, UDP, control in order and stops at the first failure |
| `AdbStart.RequireDevice` | host-rust/crates/gnirehtet-vd/src/adb.rs:1108-1132 | Asks once, and once more only after a timeout and a recovered server; ok exactly when the last answer is a ready device |
| `AdbStart.Prepare` | host-rust/crates/gnirehtet-vd/src/adb.rs:676-691 | No START and no add before quiescing succeeds; each failure phase names the step that failed |
| `AdbStart.Install` | host-rust/crates/gnirehtet-vd/src/adb.rs:693-719 | Ready exactly as START needs it, or everything withdrawn after a refused add or an unhealthy listing |
| `AdbStart.Launch` | host-rust/crates/gnirehtet-vd/src/adb.rs:721-743 | START on a ready trace: success ends there, a refusal is rolled back |
| `AdbStart.Withdraw` | host-rust/crates/gnirehtet-vd/src/adb.rs:700-718 | Every failed installation attempts all three removals |
| `AdbStart.RollBackStart` | host-rust/crates/gnirehtet-vd/src/adb.rs:721-743 | A refused START is followed by a stop request, a closure check and the three removals |
| `AdbStart.ListingMeans` | host-rust/crates/gnirehtet-vd/src/adb.rs:1062-1099 | A listing is clean exactly when no product port is mapped, whoever it points to, and healthy exactly when all three are mapped to themselves |
| `IpPackets.ReassemblyIsExact` | app/src/main/java/com/genymobile/gnirehtet/IPPacketOutputStream.java:33-109 | For any stream of IPv4 packets with correct total lengths, cut into writes of at most 65536 bytes in any way, the target gets one write per packet in order, every write finds room and nothing is left over |
| `IpPackets.OneWrite` | app/src/main/java/com/genymobile/gnirehtet/IPPacketOutputStream.java:54-68 | One write in mid-stream forwards exactly the packets it completes |
| `IpPackets.PrefixDrains` | app/src/main/java/com/genymobile/gnirehtet/IPPacketOutputStream.java:81-140 | Draining any prefix of such a stream forwards its whole packets and keeps the unfinished one |
| `IpPackets.AlwaysRoom` | app/src/main/java/com/genymobile/gnirehtet/IPPacketOutputStream.java:36-63 | The buffer always has room for another full write |
| `IpPackets.IPPacketOutputStream.Write` | app/src/main/java/com/genymobile/gnirehtet/IPPacketOutputStream.java:54-68 | Put, flip, sink, compact on the array: refuses without change, spins for ever exactly when a zero total length stands where a packet begins, or forwards and retains what draining says; room for another full packet is left if and only if no header of another version stands where a packet begins, and after one the buffer is full |
| `IpPackets.IPPacketOutputStream.Sink` | app/src/main/java/com/genymobile/gnirehtet/IPPacketOutputStream.java:81-86 | The loop ends within one turn more than there are bytes and has forwarded every whole packet, or is still going after any number of turns: exactly on a zero total length |
| `IpPackets.IPPacketOutputStream.SinkPacket` | app/src/main/java/com/genymobile/gnirehtet/IPPacketOutputStream.java:88-140 | One packet, or the reason there is none; the position moves on every packet except one of zero total length, which is forwarded empty and again |
| `IpPackets.DrainEndsIff` | app/src/main/java/com/genymobile/gnirehtet/IPPacketOutputStream.java:88-140 | On the bytes: a drain clears exactly when a header of another version stands where a packet begins, and is endless exactly when one with a zero total length does |
| `IpPackets.KeptIsShort` | app/src/main/java/com/genymobile/gnirehtet/IPPacketOutputStream.java:100-104 | Whatever the bytes are, a drain that keeps anything keeps less than the longest packet |
| `IpPackets.IPPacketOutputStream.JamWithOtherVersion` | app/src/main/java/com/genymobile/gnirehtet/IPPacketOutputStream.java:94-99 | A run: one byte of another version, and every later write that carries anything is refused with the buffer full |
| `IpPackets.IPPacketOutputStream.WriteStream` | app/src/main/java/com/genymobile/gnirehtet/IPPacketOutputStream.java:33-109 | A whole run of the object: any cut of a valid packet stream reaches the target one write per packet, in order, with nothing retained |
| `IpPackets.IPPacketOutputStream.Compact` | app/src/main/java/com/genymobile/gnirehtet/IPPacketOutputStream.java:64-67 | What lies between position and limit moves to the front |
| `IpPackets.ValidPacketIff` | app/src/main/java/com/genymobile/gnirehtet/IPPacketOutputStream.java:119-140 | What a valid packet is, byte by byte: version in the high half of the first byte, length in the third and fourth, most significant first |
| `Gnr4.EncodedFrameReadsBack` | host-rust/crates/gnirehtet-vd/src/protocol.rs:228-301 | What encodes decodes to the same value, and the stream reader consumes exactly that frame |
| `Gnr4.DecodedFrameReencodes` | host-rust/crates/gnirehtet-vd/src/protocol.rs:243-276 | What decodes re-encodes to the same bytes |
| `Gnr4.ReaderTakesOneFrame` | host-rust/crates/gnirehtet-vd/src/protocol.rs:278-301 | The reader accepts exactly the streams that start with an encoded frame (both directions) and returns that frame and the rest |
| `Gnr4.HeaderParts` | host-rust/crates/gnirehtet-vd/src/protocol.rs:228-241 | Each header field is read back from its place, whatever follows the header |
| `Gnr4.TypeOf` | host-rust/crates/gnirehtet-vd/src/protocol.rs:92-127 | Exactly the codes 1 to 11 are message types, each the inverse of its code |
| `Gnr4.DisplayParsesBack` | host-rust/crates/gnirehtet-vd/src/protocol.rs:33-81 | Every non-zero session id parses back from its text; the zero id is refused |
| `Gnr4.ParsedDisplaysLowerCased` | host-rust/crates/gnirehtet-vd/src/protocol.rs:33-81 | Text that parses prints as the same text in lower case |
| `Gnr4.ParseSessionId` | host-rust/crates/gnirehtet-vd/src/protocol.rs:45-90 | The loops of from_str compute exactly that parse |
| `Gnr4.ReadDigits` | host-rust/crates/gnirehtet-vd/src/protocol.rs:48-67 | The layout check accepts exactly the canonical form and yields its 32 digits in order |
| `Gnr4.FrameLayout` | host-rust/crates/gnirehtet-vd/src/protocol.rs:228-241 | The exact place and byte order of magic, version, type, payload length, session and payload |
| `Gnr4.DisplayLayout` | host-rust/crates/gnirehtet-vd/src/protocol.rs:33-43 | Each id byte as two lower-case digits, the high half first, with dashes after the 4th, 6th, 8th and 10th |
| `Gnr4.DamageIsReported` | host-rust/crates/gnirehtet-vd/src/protocol.rs:243-276 | A frame cut in the header or payload, or followed by more, is reported as that with its sizes |
| `Gnr4.SpoiltHeaderIsReported` | host-rust/crates/gnirehtet-vd/src/protocol.rs:243-301 | A spoilt magic, version or type is reported as such, by decoder and reader |

## Left out

- Sockets, tokio scheduling, subprocess capture, Windows job objects and named pipes: their outcomes are events or parameters.
- Dropped futures (task cancellation): a cancelled task that leaves a blocking call running behind a released lock is not modelled.
- Tray, CLI, icon and broker code: plumbing around a small finite policy.
- ADB and dumpsys text scraping: replies arrive already classified (closed, listed mappings, absent, timeout).
- UTF-8, JSON and redaction: parameters or omitted; IPv6 scope and flow labels are not on the wire.
- Metrics payload codec, `SocksRequest::decode`, the candidate group's lock protocol and the Connect handler: easier members of the same kinds.
- Publication order of lifecycle snapshots: suspend and wake observers run outside the publication lock, so the controller is proved on its own.
- The control lane and the monitor loop are modelled on values, as transition systems, because their interleavings are the point; the loops themselves are not imperative Dafny.
- The limit on concurrent control handlers, read-mode switching and heartbeat statistics.
- Recovery generation wrap-around at 64 bits. The two snapshots behind noting a USB loss are one step, and so are clearing the USB note and the marker at a host resume, and reading the stop flag with the locked section of an authenticated rearm.
- TransportRecovery.RebuildsAreBounded: the bound of four requires prompt stores to the auto-rearm marker, because it is false without them; the general account has no such assumption.
- StopDrain.DrainedMeansSilent: covers the runs that hold the operation lock; the awake probe of the liveness supervisor runs outside it and is not a command of these runs.
- AndroidLiveness runs its passes one after another, as the monitor loop does.
- I/O errors in the log, file sizes beyond 64 bits, and log files with names of another form.
- The one-byte `write(int)` form of the Java reassembler.
- ReplyWriter.WriteReplies: a write error on the TCP stream ends the writer and is not modelled; the limit of eight replies per wake is not needed and any grouping is covered.
- RelayGate.LeaseIsValidIffNeverDisabled: requires a generation below 2^64 - 1, because at the ceiling the equivalence is false.
- RelayGate.StaleProbesChangeNothing: requires fewer than 2^64 control events in between, because the epoch wraps.
- RotatingLog.TotalIsBounded: requires that no file exceeds the bound, because one oversize record may.
- TrackDevices.LongLineDependsOnChunking: requires a UTF-8 test that accepts ASCII, as UTF-8 does.
