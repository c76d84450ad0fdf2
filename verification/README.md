# Verification model of the GloDroid device services

This project models the parts of the device tree that hold state machines, loops and arithmetic, and proves what they keep over every run. `dafny verify dfyconfig.toml` checks all of it.

| files | what they model |
|---|---|
| `BoosterMachine`, `BoosterProperties`, `GloDroidPower` | the DVFS booster thread and the power service that feeds it |
| `GadgetPlan`, `GadgetPlanProperties`, `GadgetMachine`, `GadgetProperties`, `GadgetTheorems`, `GadgetRuns`, `GadgetReplies`, `UsbGadget` | the USB function switch and its FunctionFS monitor thread |
| `RoleSwitchMachine`, `RoleSwitchProperties`, `UsbRoles` | the Type-C role switch: any number of callers and the uevent worker over three locks |
| `Uevent`, `TypeCPorts` | the uevent buffer scan, the port listing and the role files |
| `Pwle`, `PwleText`, `Decimal` | the vibration composer: a small compiler with a printer, and a parser for its text |
| `FFDevice` | the force-feedback device |
| `DiskImage` | the partition allocator of the image generator |

How the pieces fit together:

- A protocol between threads is a state machine whose steps are the actions between two lock operations, with an explicit location for each thread; which thread moves next is free. The objects themselves are classes (`GloDroidPower`, `UsbGadget`, `UsbRoles`, `PwleText`, `FFDevice`, `DiskImage`). Their methods are the critical sections and calls of the services. A booster or role switch method does to the fields exactly what one step of the machine does to the state; a monitor method, from any machine state that shows the object (`MonitorFfs.Shows`), what a run of the monitor's steps, or the service's step, does to it; the setup methods of the gadget what running the plan does, which `SetupStepsRunPlan` ties to the machine's steps; the others what their specification function says.
- The operating system is a parameter of each step: whether a write, a symlink, an upload or a removal succeeds, which endpoints are readable, when the clock moves, when a wait ends spuriously. The clock is a natural number of nanoseconds.
- The binder pools of the power, gadget and USB services have one thread (`hals/power/main.cpp:26`, `hals/usb-gadget/service.cpp:36`, `hals/usb-aidl/service.cpp:26`). The booster and the gadget machines use this: calls come one after the other, and a `setMode` is finished before the next call. The role switch machine does not: it allows any number of concurrent callers.

## Where the code does less than its shape suggests

Each of these is a theorem, with the exact condition under which the expected behaviour holds.

- The booster's wait has no predicate. A notification makes the next wait return at once if and only if it is sent while the thread is inside the wait or the timer has expired anyway (`NotificationReachesIff`), and makes it return at all if and only if it is sent inside the wait or a timer is set (`NotificationReachesEverIff`). One that falls into the unlocked gap before a wait without a timer, which is a wait with no boost on or with LAUNCH seen (`ClockWakesIff`), is lost until something else wakes the thread: a boost request or an exit (`RequestInGapIsLost`, `ExitInGapIsLost`), or LAUNCH switched off, which leaves every device at its maximum frequency (`LaunchOffInGapIsLost`). `StaleBoostCancelledIff` and `ExitSeenIff` say exactly when an unwanted boost is cancelled, and an exit seen, without another call.
- A partner-added record that is handled after the role switch's wait timed out, but before the switch has its lock back, does not make the switch succeed, although the record was handled during the switch (`LateRecordIsIgnored`). The outcome is decided by which of the two came first after the role write (`SwitchOutcomeIff`).
- A gadget setup that fails after registering endpoints leaves them in the list, since teardown resets the monitor only if one runs (`FailedSetupLeaves`). A call starts its monitor with exactly its own endpoints if and only if, when it arrived, a monitor was running or no endpoint was registered (`EndpointsAtCallIff`, and the concrete run `StaleEndpoints`).
- `mCurrentUsbFunctionsApplied` is cleared before the old monitor is stopped. It can be set again by the time the old configuration is torn down if and only if a monitor was running when the call arrived (`AppliedAgainIff`, and a run from the start in `FlagSetDuringTeardown`).
- The dot of the uevent regular expression does not match a line terminator, so "add", a newline and "-partner" make no partner record (`MatchIff`, `NewlineIsNoMatch`).
- Reading a data or power role whose file names the other kind of role changes the tag, and the following read of the requested field aborts the process. `StatusEndsIff` says for exactly which role files the listing of a port aborts and for which it fails, `DataRoleInPowerFileAborts` gives one.
- A listing that fails keeps the ports it did not come to under an empty name, and the worker then tries to write to the port of that name. Some order of the ports leads there if and only if there are two ports or more, the files of one make it fail, and no partner entry is found for the empty name (`WorkerMayWriteToNoPortIff`, `NamelessPortIff`; `HandleTypec` for the code itself).
- A braking element of negative duration passes validation; the callback's sleep is the true total if and only if the sum of the durations is not negative (`SleepIsExactIff`, `NegativeBrakeWraps`).
- The device leaks one effect for each removal the driver refuses (`NothingLeaksIff`, `RefusedOffLeaks`), and an effect longer than 65535 ms is cut (`LengthIsExactIff`, `LongVibrationIsCut`).
- The image copy drops the last size mod 4096 bytes of a partition image (`OnlyTheTailIsMissing`, `FileIsHeldIff`, `OneByteIsLost`); an image of whole blocks is always complete (`WholeBlocksAreHeld`).

## Model

| member | source | states |
|---|---|---|
| `BoosterProperties.SetBoostIs` | hals/power/Power.cpp:55-62 | an interaction or display boost moves the deadline to now plus its milliseconds (100 if not positive) when that is later, notifying the thread then only; every other boost changes nothing |
| `BoosterProperties.DeadlineRefinesHistory` | hals/power/GloDroidPower.h:166-191 | after any run, the one deadline and flag are active if and only if some past timed request covers now, for the milliseconds it asked for (100 if that was not positive), or LAUNCH was enabled as of the last completed `setMode` |
| `BoosterProperties.EvaluationRefinesHistory` | hals/power/GloDroidPower.h:224-244 | every evaluation exits if asked to and otherwise leaves the boost on exactly when the whole request history wants it |
| `BoosterProperties.DeadlineNeverDecreases` | hals/power/GloDroidPower.h:173-180 | `boost_end_` never decreases between two points of a run |
| `BoosterProperties.WaitMissesNothing` | hals/power/GloDroidPower.h:221-251 | in a wait with no notification lost in the gap before it, either a notification is pending or deadline and flag are as last evaluated, a timed boost has its timer at `boost_end_`, and a stale boost or a notified exit makes the wait due |
| `BoosterProperties.TimedBoostIsCancelled` | hals/power/GloDroidPower.h:238-250 | such a boost held by the deadline alone is turned off by sleeping to the deadline, with no notification needed |
| `BoosterProperties.NotifiedExitIsSeen` | hals/power/GloDroidPower.h:134-141 | such a notified exit ends the thread at its next wakeup, which is due |
| `BoosterProperties.NotificationReachesIff` | hals/power/GloDroidPower.h:194-223 | a notification makes the next wait return if and only if it is sent inside the wait or the timer has expired anyway |
| `BoosterProperties.NotificationReachesEverIff` | hals/power/GloDroidPower.h:194-223 | and it makes the next wait return at some time if and only if it is sent inside the wait or a timer is set |
| `BoosterProperties.ClockWakesIff` | hals/power/GloDroidPower.h:217-251 | a wait without a notification becomes due by the clock alone if and only if the last evaluation left a boost on without seeing LAUNCH |
| `BoosterProperties.StaleBoostCancelledIff` | hals/power/GloDroidPower.h:221-250 | in such a wait, a boost without the flag is turned off by the thread on its own if and only if the last evaluation did not see LAUNCH |
| `BoosterProperties.ExitSeenIff` | hals/power/GloDroidPower.h:134-141 | in such a wait, an exit ends the thread without another call if and only if the last evaluation left a timed boost |
| `BoosterProperties.LaunchOffInGapIsLost` | hals/power/GloDroidPower.h:183-191 | a concrete run: LAUNCH switched off in the gap; the device stays at its maximum frequency through every run without another call |
| `BoosterProperties.RequestInGapIsLost` | hals/power/GloDroidPower.h:221-223 | a concrete run: a request in the gap is wanted by the history and wakes nobody, however long the clock runs |
| `BoosterProperties.ExitInGapIsLost` | hals/power/GloDroidPower.h:134-141 | a concrete run: an exit stored and notified in the gap leaves the join waiting for ever |
| `BoosterProperties.CallsAlternate` | hals/power/GloDroidPower.h:214-244 | over any run, spurious wakeups included, the `BoostAll` calls are true, false, true, ... and `boosted` is the last of them |
| `BoosterProperties.FilesFollowCalls` | hals/power/GloDroidPower.h:86-102 | while writes succeed, every minimum file holds its initial maximum while boosted and its initial minimum otherwise |
| `BoosterProperties.FileSettledIff` | hals/power/GloDroidPower.h:208-212 | one `BoostAll` leaves a file at its initial maximum, or minimum, if and only if its write succeeds or the value was there already |
| `GloDroidPower.SysfsIntFile.Write` | hals/power/GloDroidPower.h:55-73 | a write changes the file and the last value together, and only when the file is usable and accepts it |
| `GloDroidPower.DevFreq.constructor` | hals/power/GloDroidPower.h:88-91 | a device is usable only if both files are and its minimum file then holds its initial minimum |
| `GloDroidPower.GloDroidPower.constructor` | hals/power/GloDroidPower.h:106-132 | exactly the usable devices found become boosters, and the new object is an initial state of the machine |
| `GloDroidPower.GloDroidPower.Collect` | hals/power/GloDroidPower.h:108-118 | the booster list is the usable devices in the order found |
| `GloDroidPower.GloDroidPower.BoostFor` | hals/power/GloDroidPower.h:166-181 | does to the fields what a timed request does to the machine |
| `GloDroidPower.GloDroidPower.BoostEn` | hals/power/GloDroidPower.h:183-191 | stores the flag and notifies |
| `GloDroidPower.GloDroidPower.BoostAll` | hals/power/GloDroidPower.h:208-212 | the loop writes every booster's file exactly as the machine's function does, whatever writes fail |
| `GloDroidPower.GloDroidPower.SetBoosted` | hals/power/GloDroidPower.h:230-244 | `BoostAll` runs only on a change, with the new value |
| `GloDroidPower.GloDroidPower.EnterWait` | hals/power/GloDroidPower.h:222-223 | the step from the gap into the wait |
| `GloDroidPower.GloDroidPower.Evaluate` | hals/power/GloDroidPower.h:224-251 | everything between the return of the wait and the release of the mutex is one evaluation step |
| `GloDroidPower.Power.SetMode` | hals/power/Power.cpp:33-47 | updates the mode set and drives the booster with LAUNCH's new state, as the two machine steps |
| `GloDroidPower.Power.SetBoost` | hals/power/Power.cpp:55-62 | only the two boosting kinds reach the booster |
| `GadgetTheorems.SuccessIsCaused` | hals/usb-gadget/UsbGadget.cpp:224-237 | a SUCCESS reported after the wait comes from the monitor this very call started, which wrote the UDC right after a scan that found every registered endpoint readable |
| `GadgetTheorems.PullUpNeedsMonitor` | hals/usb-gadget/lib/MonitorFfs.cpp:205-211 | `gadgetPullup` is true only while a monitor runs that has written the UDC itself |
| `GadgetTheorems.WriteUdcIff` | hals/usb-gadget/lib/MonitorFfs.cpp:143-174 | `writeUdc` is false exactly when a UDC write has succeeded and no scan since then found an endpoint missing |
| `GadgetTheorems.PullUpsSeparated` | hals/usb-gadget/lib/MonitorFfs.cpp:152-174 | between two successful pull-ups of one monitor run a scan saw an endpoint missing |
| `GadgetTheorems.ShutdownProtocol` | hals/usb-gadget/lib/MonitorFfs.cpp:176-218 | the eventfd counter is 100 exactly while the service joins a monitor that has not read it, else 0; a live monitor has a callback; a setup starts with no monitor |
| `GadgetTheorems.EndpointsFixedWhileRunning` | hals/usb-gadget/lib/MonitorFfs.cpp:253-257 | no step but the reset changes the endpoint list while a monitor runs |
| `GadgetTheorems.SetupLinksExactly` | hals/usb-gadget/UsbGadget.cpp:201-278 | after any history, failed calls included, a setup that got through its plan leaves exactly function0 .. function(k-1), one per granted function in the fixed order |
| `GadgetTheorems.OtherEntriesUntouched` | hals/usb-gadget/lib/UsbGadgetUtils.cpp:26-49 | no run changes an entry of the configuration directory whose name is not a function link's |
| `GadgetRuns.EndpointsAtCallIff` | hals/usb-gadget/UsbGadget.cpp:111-120 | a call starts its monitor with its own endpoints behind those registered when it arrived, if no monitor was running then; they are exactly its own if and only if one was running or none was registered |
| `GadgetTheorems.FailedSetupLeaves` | hals/usb-gadget/UsbGadget.cpp:207-214 | a failing setup leaves behind exactly the endpoints it had registered, besides those already left |
| `GadgetTheorems.AcceptedActionSucceeds` | hals/usb-gadget/lib/UsbGadgetUtils.cpp:64-75 | an action the system accepts succeeds: the next link's name is always free |
| `GadgetTheorems.SetupStepsRunPlan` | hals/usb-gadget/UsbGadget.cpp:201-214 | the steps of a setup lead where running the plan leads, with what was configured so far left in place when one is refused |
| `GadgetTheorems.StaleEndpoints` | hals/usb-gadget/UsbGadget.cpp:114-118 | a concrete run: after a failed setup of ADB and MTP, the monitor of ADB alone waits for the MTP endpoints too |
| `GadgetRuns.OneReplyPerCall` | hals/usb-gadget/UsbGadget.cpp:218-289 | over any run, whenever the service is idle, the calls replied to are exactly those that came with a callback, each once and in order |
| `GadgetRuns.ExpectingIff` | hals/usb-gadget/UsbGadget.cpp:218-289 | the numbers in that list are exactly those of the calls with a callback, without repetition |
| `GadgetReplies.CallIsAnswered` | hals/usb-gadget/UsbGadget.cpp:242-290 | the one answer of every ended call with a callback, in every run: via the monitor, SUCCESS, not supported or ERROR, each if and only if the mask and the outcomes of the call's steps are those that lead there |
| `GadgetReplies.SupportedIff` | hals/usb-gadget/UsbGadget.cpp:138-199 | supported are exactly ADB alone, one other function, or accessory with audio source, each of these with or without ADB |
| `GadgetReplies.DirectSetupIsApplied` | hals/usb-gadget/UsbGadget.cpp:217-222 | a call that wrote the UDC itself ends with the functions marked as applied |
| `GadgetReplies.WaitIsAnswered` | hals/usb-gadget/UsbGadget.cpp:232-235 | the answer after the wait is the pull-up flag, which a wait that did not time out finds set |
| `GadgetReplies.CallNeverSticks` | hals/usb-gadget/UsbGadget.cpp:242-290 | in every reachable state of a call the service, or the monitor it joins, has a step to take |
| `GadgetRuns.AppliedAgainIff` | hals/usb-gadget/UsbGadget.cpp:247-251 | from any reachable idle state, a call can find the applied flag set again after the teardown if and only if a monitor was running when it arrived |
| `GadgetRuns.NoMonitorNoLateFlag` | hals/usb-gadget/UsbGadget.cpp:247-278 | a call that arrives without a monitor running has the flag cleared through its whole teardown and setup, in every run |
| `GadgetRuns.FlagSetDuringTeardown` | hals/usb-gadget/lib/MonitorFfs.cpp:163-173 | a concrete run: the monitor of ADB pulls up while the next call tears ADB down, and the setup begins with the flag set |
| `GadgetPlanProperties.PlanFollowsOrder` | hals/usb-gadget/lib/UsbGadgetUtils.cpp:126-202 | the branches link exactly the granted functions in the fixed order (PTP only without MTP) and register exactly their endpoints |
| `GadgetPlanProperties.EndpointsIffFfs` | hals/usb-gadget/UsbGadget.cpp:211-217 | a setup registers endpoints exactly when a FunctionFS function is requested, that is, when it starts the monitor |
| `GadgetPlanProperties.PlanWatches` | hals/usb-gadget/lib/UsbGadgetUtils.cpp:133-195 | a setup watches exactly the directories of MTP or PTP, and of ADB, as requested |
| `GadgetPlanProperties.RunPlanWatches` | hals/usb-gadget/lib/MonitorFfs.cpp:240-251 | a plan that is carried out adds exactly its directories to the watch list |
| `GadgetPlanProperties.NumberedIs` | hals/usb-gadget/lib/UsbGadgetUtils.cpp:68-70 | a numbered link, by its name and the configfs path it points to |
| `GadgetPlanProperties.FunctionLinkIff` | hals/usb-gadget/lib/UsbGadgetUtils.cpp:37 | an entry is a function link if and only if "function" occurs in its name |
| `GadgetPlanProperties.NextNameFree` | hals/usb-gadget/lib/UsbGadgetUtils.cpp:68-70 | with links numbered without gaps, the next number is not taken |
| `GadgetPlanProperties.ActExtends` | hals/usb-gadget/lib/UsbGadgetUtils.cpp:64-75 | each successful action extends the numbered links by exactly its own and touches no other entry |
| `UsbGadget.MonitorFfs.StartMonitor` | hals/usb-gadget/lib/MonitorFfs.cpp:214-218 | the thread starts with nothing seen, as the machine's start step |
| `UsbGadget.MonitorFfs.Scan` | hals/usb-gadget/lib/MonitorFfs.cpp:143-150 | the scan stops at the first unreadable endpoint, reports whether all are readable, and is a run of the machine's accesses |
| `UsbGadget.MonitorFfs.TryPullUp` | hals/usb-gadget/lib/MonitorFfs.cpp:163-173 | a successful write sets both flags and clears `writeUdc`, a failed one changes nothing, as the machine's write and delivery |
| `UsbGadget.MonitorFfs.FirstScan` | hals/usb-gadget/lib/MonitorFfs.cpp:101-121 | the monitor starts pulled up exactly if every endpoint is there and the write succeeds; a run of the machine from the start of the thread to its first wait |
| `UsbGadget.MonitorFfs.OnInotify` | hals/usb-gadget/lib/MonitorFfs.cpp:143-174 | after an event `writeUdc` is false exactly if all endpoints are readable and the gadget was or is now pulled up; a run of the machine from wait to wait |
| `UsbGadget.MonitorFfs.OnEventFd` | hals/usb-gadget/lib/MonitorFfs.cpp:176-183 | the read empties the counter, and exactly 100 stops the thread, as the machine's read step |
| `UsbGadget.MonitorFfs.SignalStop` | hals/usb-gadget/lib/MonitorFfs.cpp:194-196 | the counter grows by 100 exactly when a monitor runs, as the machine's stop step |
| `UsbGadget.MonitorFfs.FinishReset` | hals/usb-gadget/lib/MonitorFfs.cpp:202-211 | after the join no monitor, endpoint, pull-up or callback is left, as after the machine's join step |
| `UsbGadget.UsbGadget.LinkFunction` | hals/usb-gadget/lib/UsbGadgetUtils.cpp:64-75 | one link under the next number, refused when the name exists; the number advances either way |
| `UsbGadget.UsbGadget.AddGenericAndroidFunctions` | hals/usb-gadget/lib/UsbGadgetUtils.cpp:126-188 | the branches with their early exits do to the fields what running the plan does |
| `UsbGadget.UsbGadget.AddAdb` | hals/usb-gadget/lib/UsbGadgetUtils.cpp:190-202 | likewise for ADB |
| `UsbGadget.UsbGadget.SetupFunctions` | hals/usb-gadget/UsbGadget.cpp:201-228 | the links and lists are those of the plan; a monitor runs afterwards exactly if everything succeeded and a FunctionFS function was requested; without one a successful call is replied to at once |
| `UsbGadget.UsbGadget.ReplyAfterWait` | hals/usb-gadget/UsbGadget.cpp:232-237 | after the wait the pull-up flag decides the reply, as in the machine's step |
| `UsbGadget.UsbGadget.UnlinkFunctions` | hals/usb-gadget/lib/UsbGadgetUtils.cpp:26-49 | fails for a directory that cannot be opened or an entry that cannot be removed; otherwise removes exactly the function links; keeps the rest in any case |
| `UsbGadget.UsbGadget.Strstr` | hals/usb-gadget/lib/UsbGadgetUtils.cpp:37 | the name filter finds the pattern at any place |
| `RoleSwitchProperties.SuccessIsCaused` | hals/usb-aidl/Usb.cpp:202-241 | in every interleaving, `switchMode` returns true only after its own role write, followed by nothing but handled partner records |
| `RoleSwitchProperties.FailureWritesDual` | hals/usb-aidl/Usb.cpp:238-241 | when it returns false it has gone through `switchToDrp`: its "dual" comes before the return with nothing but partner records in between |
| `RoleSwitchProperties.SwitchOutcomeIff` | hals/usb-aidl/Usb.cpp:219-232 | a switch that wrote its role succeeds if and only if a partner record came before the timeout |
| `RoleSwitchProperties.NotificationTells` | hals/usb-aidl/Usb.cpp:285-313 | what userspace is told is the outcome: before a thread notifies, the last thing observed of it is its return from `switchMode` with that outcome, or the write and read-back of the data or power role |
| `RoleSwitchProperties.ModeStays` | hals/usb-aidl/Usb.cpp:285-319 | from the call to the notification a thread serves the kind of switch it was called for |
| `RoleSwitchProperties.WorkerTriesTheLock` | hals/usb-aidl/Usb.cpp:627-643 | after the status query the worker goes on to the roles if and only if the role lock is free |
| `RoleSwitchProperties.RecordFindsTheWait` | hals/usb-aidl/Usb.cpp:619-624 | a partner record handled during a switch finds it in the wait and wakes it with the flag set, unless its outcome is decided already |
| `RoleSwitchProperties.LateRecordIsIgnored` | hals/usb-aidl/Usb.cpp:219-232 | a concrete run: a record handled between the timeout and the reacquired lock sets the flag and the switch still fails |
| `RoleSwitchProperties.OneWaiter` | hals/usb-aidl/Usb.cpp:281-287 | at most one thread is queued on the condition variable, so a signal cannot wake the wrong one |
| `RoleSwitchProperties.WorkerWritesDualAlone` | hals/usb-aidl/Usb.cpp:629-643 | the worker never writes "dual" while any `switchRole` is in its critical section |
| `RoleSwitchProperties.WaitChainsEnd` | hals/usb-aidl/Usb.cpp:207-319 | a holder of the partner or main lock wants no other lock, so no thread waits for one that waits for one that waits |
| `RoleSwitchProperties.NoWaitCycle` | hals/usb-aidl/Usb.cpp:207-319 | the wait-for graph over the three locks has no cycle of any length |
| `RoleSwitchProperties.SomeBusyThreadMoves` | hals/usb-aidl/Usb.cpp:543-643 | in every reachable state with a busy thread, some busy thread can take a step |
| `UsbRoles.Usb.ClearPartnerUp` | hals/usb-aidl/Usb.cpp:207-208 | taking the partner lock forgets an earlier partner |
| `UsbRoles.Usb.WriteRole` | hals/usb-aidl/Usb.cpp:209-221 | a written role leads into the wait, a failed write to the dual role |
| `UsbRoles.Usb.WaitReturns` | hals/usb-aidl/Usb.cpp:221-232 | success exactly for a wakeup with the flag set, another wait exactly for one without, failure for a timeout |
| `UsbRoles.Usb.SwitchToDrp` | hals/usb-aidl/Usb.cpp:238-239 | a failed switch writes "dual" before it returns |
| `UsbRoles.Usb.Return` | hals/usb-aidl/Usb.cpp:241 | the return, with the outcome decided before |
| `UsbRoles.Usb.WriteAndReadBack` | hals/usb-aidl/Usb.cpp:288-307 | a data or power switch succeeds exactly if its write and its read-back do |
| `UsbRoles.Usb.NotifyStatus` | hals/usb-aidl/Usb.cpp:309-318 | the notification carries the kind and the outcome of the switch |
| `UsbRoles.Usb.PartnerAdded` | hals/usb-aidl/Usb.cpp:621-624 | sets the flag and wakes whoever is queued, in one critical section |
| `Uevent.HandleMessage` | hals/usb-aidl/Usb.cpp:603-649 | a missing or overlong message is dropped; otherwise the visited records are the received ones up to the first empty one or the first Type-C one, each answered by its own test, reading no further than the second NUL |
| `Uevent.ScanRecords` | hals/usb-aidl/Usb.cpp:616-648 | the scanning loop ends and stays within the terminated buffer |
| `Uevent.RecordsOfFlatten` | hals/usb-aidl/Usb.cpp:614-618 | a buffer made of non-empty NUL-terminated records splits into exactly those records |
| `Uevent.ScanIsVisited` | hals/usb-aidl/Usb.cpp:618-648 | what the loop visits is a function of the records alone |
| `Uevent.VisitedIsPrefix` | hals/usb-aidl/Usb.cpp:625-645 | the visited records are all of them, or those up to and including the first Type-C one |
| `Uevent.PartnerUpIff` | hals/usb-aidl/Usb.cpp:619-624 | the partner flag is set if and only if some visited record matches the expression |
| `Uevent.TypecIsLast` | hals/usb-aidl/Usb.cpp:625-645 | a Type-C record is acted on if and only if there is one, once, and as the last; a partner record never is one |
| `Uevent.MatchIff` | hals/usb-aidl/Usb.cpp:619 | a record matches if and only if it starts with "add", ends with "-partner" and has no line terminator in between |
| `Uevent.ResponsesByText` | hals/usb-aidl/Usb.cpp:619-625 | exactly which texts make a partner record and which a Type-C record |
| `Uevent.LineTerminatorHides` | hals/usb-aidl/Usb.cpp:619 | any record with a line terminator between its two ends is ignored |
| `Uevent.NewlineIsNoMatch` | hals/usb-aidl/Usb.cpp:619 | one such record |
| `Uevent.NoOverlap` | hals/usb-aidl/Usb.cpp:619 | the two ends of a match cannot overlap |
| `TypeCPorts.GetTypeCPortNames` | hals/usb-aidl/Usb.cpp:422-448 | a port is a key if and only if it appears as a plain link or as the part of a partner link before the dash, and is connected if and only if the latter |
| `TypeCPorts.OrderInsensitive` | hals/usb-aidl/Usb.cpp:429-441 | any permutation of the directory gives the same map |
| `TypeCPorts.PartnerNamesPort` | hals/usb-aidl/Usb.cpp:438 | the first token of a partner entry is the port it belongs to |
| `TypeCPorts.LinksNamePorts` | hals/usb-aidl/Usb.cpp:431-438 | a link of the port's name makes it a key, one with "-partner" behind it a connected one |
| `TypeCPorts.DashesSkipped` | hals/usb-aidl/Usb.cpp:438 | dashes in front of a name do not count |
| `TypeCPorts.GetPortStatus` | hals/usb-aidl/Usb.cpp:464-541 | it lists one status per key, each the one its files give, if and only if no port's files make it abort or fail; otherwise the vector is cut short at a port that does; without the directory the one fake port |
| `TypeCPorts.ListPorts` | hals/usb-aidl/Usb.cpp:470-516 | the loop over the map, in any order |
| `TypeCPorts.ListedStatusIs` | hals/usb-aidl/Usb.cpp:354-505 | a listed connected port has exactly the power and data roles that its files mark, plain or in brackets and with white space behind; the accessory texts come first for the mode, then host, device and none; both switch flags are what the partner's power-delivery file says |
| `TypeCPorts.ListingsAgree` | hals/usb-aidl/Usb.cpp:471-518 | two successful listings hold the same statuses, whatever the orders |
| `TypeCPorts.UnconnectedHasNoRoles` | hals/usb-aidl/Usb.cpp:374-375 | an unconnected port is always listed, with NONE roles and no data or power switch |
| `TypeCPorts.ExtractsActive` | hals/usb-aidl/Usb.cpp:161-170 | the bracketed role of a role file is found |
| `TypeCPorts.BracketsReversed` | hals/usb-aidl/Usb.cpp:164-168 | with the closing bracket first, everything behind the opening one is taken |
| `TypeCPorts.RequestedTexts` | hals/usb-aidl/Usb.cpp:141-159 | which roles are asked for by which text |
| `TypeCPorts.ReadsBackIff` | hals/usb-aidl/Usb.cpp:292-299 | a data or power switch succeeds if and only if the file it wrote marks the role it asked for |
| `TypeCPorts.ReadBackIsCurrent` | hals/usb-aidl/Usb.cpp:288-307 | a data or power switch that read back as requested is what the status query then reports |
| `TypeCPorts.StatusEndsIff` | hals/usb-aidl/Usb.cpp:354-419 | the listing of a connected port aborts if and only if the power file names a data role, or names another role while the data file names a power role; and exactly when it fails, by missing files or unknown names |
| `TypeCPorts.DataRoleInPowerFileAborts` | hals/usb-aidl/Usb.cpp:402-406 | one such file: a power role of "host" |
| `TypeCPorts.ListingMayEndIff` | hals/usb-aidl/Usb.cpp:471-499 | some order of the ports makes the whole listing abort, or fail, if and only if the files of some port do |
| `TypeCPorts.SwitchDisconnectedToDual` | hals/usb-aidl/Usb.cpp:629-643 | dual role is written for exactly the listed ports without a partner, and for none if the role lock is taken |
| `TypeCPorts.NamelessPortIff` | hals/usb-aidl/Usb.cpp:470-483 | some order of the ports makes a failing listing leave a port without a name if and only if there are two ports or more and the files of one make it fail |
| `TypeCPorts.HandleTypec` | hals/usb-aidl/Usb.cpp:625-643 | the whole reaction to a Type-C record: without the lock, or when the listing aborts, nothing is written; after a full listing exactly to the ports without a partner entry; after a failed one only to such ports, and to the port of no name only under that condition |
| `TypeCPorts.WorkerMayWriteToNoPortIff` | hals/usb-aidl/Usb.cpp:625-643 | some order of the ports makes the worker write to the port of no name if and only if that condition holds and no partner entry is found for the empty name |
| `Pwle.SameCurve` | pinephone/vibrator/Vibrator.cpp:350-362 | for every accepted composite, start state and moment, the emitted segments play the same as the naive ones that always include a start segment |
| `Pwle.PlaysItsElements` | pinephone/vibrator/Vibrator.cpp:330-385 | while element i of an accepted composite lasts, the emitted program plays the ramp between its own levels, or its own braking type at zero levels |
| `Pwle.StaysAtTheEnd` | pinephone/vibrator/Vibrator.cpp:330-385 | after the last element the device stays where that one ends |
| `Pwle.EmittedInOrder` | pinephone/vibrator/Vibrator.cpp:350-383 | every segment of every element, at its place in the emitted program |
| `Pwle.ValidIs` | pinephone/vibrator/Vibrator.cpp:315-373 | the accepted sizes, durations, levels, frequencies and braking types in numbers |
| `Pwle.ElapsedIsSum` | pinephone/vibrator/Vibrator.cpp:363-382 | without negative durations an element begins when the durations before it have passed |
| `Pwle.SkipsIffContinues` | pinephone/vibrator/Vibrator.cpp:350-351 | a start segment is left out exactly if the element continues an active predecessor's end; the sentinel never passes for a valid start |
| `Pwle.RangeTestMatters` | pinephone/vibrator/Vibrator.cpp:273-277 | without the range test a start at the sentinel would be left out and the curve change |
| `Pwle.SegmentCount` | pinephone/vibrator/Vibrator.cpp:350-383 | one segment an element plus one for each that brakes or does not continue its predecessor, at most 254 |
| `Pwle.WrapOfSum` | pinephone/vibrator/Vibrator.cpp:363 | accumulating in 32 bits gives the true sum modulo 2^32 |
| `Pwle.SleepIsExactIff` | pinephone/vibrator/Vibrator.cpp:363-390 | with no negative duration the total is at most 127 times 16383; the sleep is exactly 1000 times the true sum if and only if that sum is not negative |
| `Pwle.NegativeBrakeWraps` | pinephone/vibrator/Vibrator.cpp:366-382 | an accepted composite of one braking element of -1 ms sleeps for over an hour |
| `PwleText.ConstructActiveSegment` | pinephone/vibrator/Vibrator.cpp:283-296 | appends exactly the seven tagged fields of a ramp |
| `PwleText.ConstructBrakingSegment` | pinephone/vibrator/Vibrator.cpp:298-308 | appends exactly the seven tagged fields of a brake |
| `PwleText.SegmentTextIs` | pinephone/vibrator/Vibrator.cpp:283-308 | the text of a ramp and of a brake in full |
| `PwleText.ComposePwle` | pinephone/vibrator/Vibrator.cpp:310-398 | accepts exactly the valid composites; then the text is the header and the emitted segments, the index their number and the total their wrapped sum |
| `PwleText.RoundTrip` | pinephone/vibrator/Vibrator.cpp:283-386 | the text of any program reads back to its segments, one row each, none missing |
| `PwleText.ReadIsExact` | pinephone/vibrator/Vibrator.cpp:283-328 | a text reads as some rows only if it is the header followed by T, L, F, C, B, AR, V of row 0, 1, 2, ... in order and nothing else |
| `PwleText.SameTextSameSegments` | pinephone/vibrator/Vibrator.cpp:283-386 | programs of equal text have the same segments, up to how a level prints |
| `Decimal.IntRoundTrip` | pinephone/vibrator/Vibrator.cpp:292 | the decimal text of any integer reads back to it |
| `Decimal.PlacesCount` | pinephone/vibrator/Vibrator.cpp:292 | the reader is a decimal one: a digit counts ten times as much for every digit behind it |
| `FFDevice.Device.Vibrate` | pinephone/vibrator/FFDevice.cpp:59-84 | turns the old effect off, uploads and plays a new one, whatever fails on the way |
| `FFDevice.Device.TurnOff` | pinephone/vibrator/FFDevice.cpp:86-96 | forgets the last effect even when the driver refuses to remove it |
| `FFDevice.NothingLeaksIff` | pinephone/vibrator/FFDevice.cpp:59-96 | over any run of calls the driver holds the device's last effect and one more per refused removal; nothing leaks if and only if none was refused |
| `FFDevice.RefusedOffLeaks` | pinephone/vibrator/FFDevice.cpp:92-95 | a concrete run: a vibration and a refused removal leave an effect that the device has forgotten |
| `FFDevice.AtMostOneEffect` | pinephone/vibrator/FFDevice.cpp:59-96 | with every removal granted and uploads failing at will, the driver holds at most one effect, the last one |
| `FFDevice.LongVibrationIsCut` | pinephone/vibrator/FFDevice.cpp:66 | a vibration of 65536 ms is uploaded with length 0 |
| `FFDevice.KeptForGood` | pinephone/vibrator/FFDevice.cpp:92-95 | an effect whose removal was refused is never removed later |
| `FFDevice.LengthIsExactIff` | pinephone/vibrator/FFDevice.cpp:63-78 | the uploaded effect lasts as long as requested if and only if that is between 0 and 65535 ms, and it is the one that is played |
| `FFDevice.NothingUploaded` | pinephone/vibrator/FFDevice.cpp:71-74 | a call without an upload leaves no last effect, plays nothing and takes away at most the last effect |
| `DiskImage.Generator.AddPart` | platform/tools/gensdimg.sh:17-35 | one call adds one partition, copies its blocks and advances PTR; a refused partition ends the script with nothing changed |
| `DiskImage.FirstSector` | platform/tools/gensdimg.sh:128-131 | the first partition starts at sector 64 on Rockchip boards and at sector 256 on all others |
| `DiskImage.PartitionsAreDisjoint` | platform/tools/gensdimg.sh:24-33 | for any list of non-empty images the sector ranges are ascending and disjoint, hold their images, and all starts but the first are on a mebibyte and waste less than one |
| `DiskImage.TableOf` | platform/tools/gensdimg.sh:15-34 | the table has one partition per image, numbered from 1, from its start to its last byte's sector |
| `DiskImage.Aligned` | platform/tools/gensdimg.sh:8-14 | every start is a whole number of sectors and of copy blocks |
| `DiskImage.CopiesStayInside` | platform/tools/gensdimg.sh:31 | a copy starts at its partition, stays inside its image and touches no other |
| `DiskImage.OnlyTheTailIsMissing` | platform/tools/gensdimg.sh:31 | in the finished image every partition holds its file except exactly the last size mod 4096 bytes, which are as they were before |
| `DiskImage.FileIsHeldIff` | platform/tools/gensdimg.sh:31 | the finished image holds a file if and only if the disk already held the part that is not copied |
| `DiskImage.WholeBlocksAreHeld` | platform/tools/gensdimg.sh:31 | a file whose size is a multiple of 4096 is always held |
| `DiskImage.OneByteIsLost` | platform/tools/gensdimg.sh:31 | a one-byte image over a disk of zeros is not there afterwards |

## Left out

- `setCallback(NULL)` (`hals/usb-aidl/Usb.cpp:734-741`), which joins the worker while holding `mLock`: not a choice of the role switch machine, so the deadlock theorems do not speak about it. Callbacks into userspace are assumed to return.
- The log line of the fake port, which reads the vector at index -1.
- Whether a callback is set when a role switch is notified: the notification is modelled as made.
- The roles already read of the port at which a listing fails; only its name, and the names of the ports before and after it, are modelled. The constant fields of a port status are not repeated.
- TypeCPorts.HandleTypec: supposes that no directory entry has an empty name.
- Changes of the role files and of the directory while one listing reads them.
- BoosterProperties.TimedBoostIsCancelled: stated for waits with no notification lost in the gap before them; for the others the property is false.
- Clock overflow: `time_point::max()` is the value `Never`, and the sum of now and a duration does not overflow. The destructor of an object without a thread, whose join throws, is not modelled.
- `UsbGadget::reset`, which writes the UDC without any lock, and the reading functions of the gadget service.
- UsbGadget.UsbGadget.SetupFunctions: ends where the wait begins; the wait, during which the monitor runs, is a step of the gadget machine, and `ReplyAfterWait` goes on behind it. Outcomes of system calls are given as the number of calls that succeed before one fails.
- The sleeps of the gadget service and of the monitor, the disconnect time that decides one of them, the content of the UDC, vendor id and product id files, and the truncation of the 64-bit timeout. A wait that times out may do so at any moment.
- `inotify_rm_watch`: `mWatchFd` keeps its entries after a reset, as in the code, and the kernel's watch set is not modelled.
- A failing write to the eventfd, and an epoll call that returns no event: neither changes the modelled state.
- Pwle.SameCurve: what a program plays is this model's own reading of it, jumps for segments without a positive length and linear ramps for the others, since no device code is in the repository. Levels are real numbers: NaN, which passes the range tests, and the rounding of floats are not modelled.
- PwleText.RoundTrip: how a float prints is left open, apart from containing no comma and no colon; a level is recovered as its printed token.
- FFDevice.AtMostOneEffect: supposes that the driver gives a new effect an id that is not in use and fits in 16 bits.
- DiskImage.Generator.AddPart: the final "fit" partition, whose start `sgdisk` chooses, is not modelled, nor is a `dd` that fails half way, which the script does not notice, or a disk that is too small.
- The magnitudes of an effect, concurrent calls of the force-feedback device, the completion callbacks of the vibrator, and the search for the input device.
- `platform/uboot/bootscript.cpp`, `pinephone/lights/lights.cpp`, `VibratorManager.cpp`, the speed and capability queries, and all configuration files: each would only add members that are settled by reading one function.
