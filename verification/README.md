# Control panel: a model of its state machines, codecs and transformations

This project models the parts of the server panel that are written by hand and
whose behaviour depends on order, time or failure, and proves what they keep.
Each mutex-held block of the program is one atomic step. Objects whose methods
update their fields are classes whose methods are proved against functions on
values; the theorems over whole runs are about sequences of such steps, in any
order, with any pattern of failures.

| file | what it models |
|---|---|
| `prelude.dfy`, `windows.dfy` | shared datatypes; counting instants in sliding windows |
| `supervisor.dfy`, `supervisor_steps.dfy`, `console.dfy` | the Minecraft process supervisor among its goroutines; console lines and the circular log |
| `terminal.dfy`, `terminal_manager.dfy` | a terminal session with replay and subscribers; the session cap |
| `fan_curve.dfy`, `fan_hardware.dfy`, `fan_controller.dfy` | fan curves and their editor; register takeover and release; the control loop |
| `file_tree.dfy`, `backup.dfy`, `zip.dfy`, `restore.dfy` | trees and paths; archives and their extraction; the restore swap |
| `properties.dfy`, `properties_update.dfy` | server.properties read and rewritten |
| `calendar.dfy`, `scheduler.dfy` | next occurrences; the schedule engine |
| `scheduler_steps.dfy`, `scheduler_runs.dfy`, `scheduler_requests.dfy`, `scheduler_restarts.dfy` | its steps and runs; requests and collected items; intervals across restarts |
| `update.dfy`, `shutdown.dfy` | self-update; remembering running servers across a shutdown |
| `motd.dfy`, `varint.dfy`, `rcon.dfy` | message-of-the-day text; two wire formats |
| `qbit.dfy`, `watch.dfy` | the qBittorrent client; when playback may start |
| `jobs.dfy`, `limiter.dfy` | the job runner; the login limiter |

`dafny verify dfyconfig.toml` checks the whole project.

The functions on values that the methods are proved against are themselves pinned
down by lemmas that do not mention them: what a step does to whom, and that nothing
else changes, is said again from the states before and after (`SupervisorSteps`,
`SchedulerSteps`, and the lemmas on delivery, extraction, curves, components and
lines beside their modules).

Where the program does not keep what its comments or a user might expect, the
model keeps the program's steps. For each of these a lemma says exactly when the
expected property holds, and another gives a case in which it does not:

- Stop returns when the process is reaped, which is before the state leaves
  "stopping", so a restart can be refused (`RestartPassesIffExitWasHandled`,
  `RestartCanBeRefused`).
- A pending automatic restart is not cancelled by what the user does meanwhile
  (`PendingRestartFiresIffIdle`, `PendingRestartUndoesAStop`).
- Console lines carry no generation: a late line may move the next run's state or
  fill the player list of an idle server (`LinesCarryNoGeneration`,
  `PlayersAreOwnIff`, `IdlePlayersAreLateJoins`, `LateLinesReachTheNextRun`).
- A fan whose first PWM write fails stays taken over after shutdown
  (`ReleaseAllForgetsIff`, `PartialFailureStrandsAFan`).
- A point dragged on a curve with fractional temperatures may leave the server's
  rules (`DragKeepsCurveValidIff`, `DragBreaksACloseCurve`).
- A scratch directory that could not be removed is restored along with the
  backup (`StaleFilesAreHarmlessIff`, `LeftoverIsRestored`).
- Editing a schedule drops a requested execution (`OneRequestIsHonouredIff`,
  `UpdateDropsRequest`), and a collected item runs although it was deleted
  (`CollectedJobStartsIff`, `DeletedItemStillRuns`).
- An item on an interval may run again too soon after a restart of the panel
  (`IntervalRunsKeepTheirDistance` with `UnsafeRestartBreaksTheDistance`; how such
  a state comes about: `UnsavedUpdateIsUnsafe`, `UpdateOfWaitingItemIsUnsafe`).
- GracefulShutdown is meant to remember running servers for resume, but the stops
  it makes, and everything else that publishes, rewrite the list (`RememberedIff`,
  `CompletedShutdownForgetsIff`, `ResumedIff`; `StopForgets`,
  `OldPublishRemembers`, `EarlyReaderRemembersSome`).

Three more have a statement of what holds instead: the session cap bounds
sessions only together with overlapping launches (`SessionsBoundedByOverlap`,
attained by `OverlapBoundIsAttained`); a key or value that a line cannot carry
does not read back (`ReadsBackIff`); and a runtime of one second has no budget,
so its wait ends in "ready" (`WaitIsLeast`).

## Model

| member | source | states |
|---|---|---|
| `Supervisor.Instance.Start` | internal/mc/instance.go:156-245 | a start succeeds exactly in stopped or crashed with everything in place; then there is a process, a fresh channel, no stop request, no players and the restart record is kept; otherwise nothing changes |
| `Supervisor.Instance.HandleLine` | internal/mc/instance.go:311-353 | the whole new state after one console line, and whether clients are told |
| `Supervisor.Instance.RecentRestarts` | internal/mc/instance.go:403-412 | the loop counts the recorded restarts after the ten-minute cutoff |
| `Supervisor.Instance.HandleExit` | internal/mc/instance.go:359-400 | the locked part of exit handling: the new state, the record, and whether a restart follows |
| `Supervisor.Instance.Stop` | internal/mc/instance.go:416-430 | the locked part of Stop: refused unless starting or running, else the state is stopping and the returned channel is that of the process held |
| `Supervisor.Instance.Kill` | internal/mc/instance.go:454-467 | refused without a process, else the request is recorded and the channel of the process held is waited on |
| `Supervisor.AtMostOneUnreapedChild` | internal/mc/instance.go:156-401 | in every interleaving a process is held exactly if the state is starting, running or stopping, and two unreaped children are the same one |
| `Supervisor.ReturnedCallsSawTheirProcessReaped` | internal/mc/instance.go:416-467 | a Stop or Kill call that returned was waiting on a process that has been reaped |
| `Supervisor.RestartBudgetHolds` | internal/mc/instance.go:372-412 | in any run every half-open ten-minute window contains at most three recorded automatic restarts |
| `Supervisor.RequestedStopsAreNotRestarted` | internal/mc/instance.go:359-388 | no process whose stop was requested has an automatic restart recorded |
| `Supervisor.StepsFollowTheGraph` | internal/mc/instance.go:227-384 | every state change of every step is an edge of the fixed graph and has the cause the code gives it |
| `Supervisor.ExitVerdict` | internal/mc/instance.go:359-388 | an exit counts as a crash exactly if nobody asked for that process to stop and it failed or the state was not stopping; when a restart is recorded, and what is cleared |
| `Supervisor.LaunchStartsClean` | internal/mc/instance.go:227-237 | a launch leaves no trace of the previous run, keeps the restart record, and finds every earlier child reaped |
| `Supervisor.OnlineIffLastMentionIsAJoin` | internal/mc/instance.go:341-348 | after any console lines a player is listed exactly if the last line that mentions the player is a join, or none does and the player was listed |
| `Supervisor.ReapedStaysReaped` | internal/mc/instance.go:355-357 | in any run a reaped child stays reaped |
| `Supervisor.RestartPassesIffExitWasHandled` | internal/mc/manager.go:315-324 | after Stop returned, the Start of a restart gets past its state check exactly if the newest process is no longer held; if none was launched since, exactly if the exit has been handled |
| `Supervisor.RestartCanBeRefused` | internal/mc/manager.go:315-324 | a run in which Stop has returned and the following Start is refused |
| `Supervisor.PendingRestartFiresIffIdle` | internal/mc/instance.go:394-400 | a sleeping automatic restart launches a process exactly if the server is idle when it wakes |
| `Supervisor.PendingRestartUndoesAStop` | internal/mc/instance.go:394-400 | a run in which a restart pending from a crash starts a server that the user has started and stopped since |
| `Supervisor.LinesCarryNoGeneration` | internal/mc/instance.go:275-353 | in any run a line moves the state exactly if it is a "done" while starting or a "stopping" while running, whichever process printed it, and then it is the newest process whose state moves |
| `Supervisor.PlayersAreOwnIff` | internal/mc/instance.go:311-353 | in any run a player is listed exactly if the last mention since the last launch or handled exit is a join; the list is what one process itself said exactly if no line of another changes a last word |
| `Supervisor.IdlePlayersAreLateJoins` | internal/mc/instance.go:311-401 | the list of an idle server is what the lines printed since the last handled exit say, so it is empty exactly if none of them leaves a join standing |
| `Supervisor.LateLinesReachTheNextRun` | internal/mc/instance.go:275-353 | runs in which a late line of a dead process marks the next one as running, and fills the player list of an idle server |
| `SupervisorSteps.StopActs` | internal/mc/instance.go:414-429 | Stop acts exactly on a starting or running server: the state is stopping, the newest process is asked to go, and one more call waits on it; in any other state nothing changes |
| `SupervisorSteps.KillActs` | internal/mc/instance.go:454-467 | Kill acts exactly while a process is held, which is exactly while the server starts, runs or stops; it asks the newest process to go and waits on it |
| `SupervisorSteps.TimeoutsEscalate` | internal/mc/instance.go:431-450 | a Stop call that waits in vain goes on twice, to the interrupt and to the kill |
| `SupervisorSteps.StopEndsStopped` | internal/mc/instance.go:355-450 | a server that starts or runs and is asked to stop ends as stopped however its process dies, with no restart recorded and the call returned |
| `SupervisorSteps.StartActs` | internal/mc/instance.go:156-245 | Start launches exactly one more process, from stopped or crashed with everything in place, and resets the run; otherwise nothing changes |
| `SupervisorSteps.RestartActs` | internal/mc/instance.go:394-400 | an automatic restart that is due does what Start does |
| `SupervisorSteps.ExitActs` | internal/mc/instance.go:355-400 | a restart follows an exit exactly if it was a crash, the server is set to restart and fewer than three restarts were recorded in the last ten minutes, and ten seconds later; all else stays |
| `SupervisorSteps.LineActs` | internal/mc/instance.go:322-352 | the version and software a line tells, when the change is announced, and that what is not announced changes nothing |
| `Windows.MeteredBoundsEveryWindow` | internal/mc/instance.go:385-411 | instants each recorded while fewer than max lay within the width before put at most max into any half-open window |
| `Windows.MeteredExtends` | internal/mc/instance.go:385-388 | recording when the count allowed it keeps the list so metered |
| `Windows.CountAfterIsCardinality` | internal/mc/instance.go:403-412 | the count is the number of recorded instants after the cutoff |
| `Terminal.Session.Pump` | internal/term/term.go:222-241 | one chunk of output: replay is the bounded tail, every live subscriber gets the chunk or is dropped |
| `Terminal.Session.BroadcastLocked` | internal/term/term.go:245-254 | the loop over subscribers delivers to those with room and closes the others |
| `Terminal.Session.Subscribe` | internal/term/term.go:257-278 | the replay snapshot, a new channel, and for an ended session only the exit notice |
| `Terminal.Session.Cancel` | internal/term/term.go:270-277 | cancelling closes the channel if it is still subscribed, and otherwise does nothing |
| `Terminal.Session.Close` | internal/term/term.go:302-314 | teardown tells and closes every subscriber, once |
| `Terminal.Session.Send` | internal/term/term.go:248-249 | a send requires an open channel with room, so none is ever sent to after its close |
| `Terminal.Session.CloseChan` | internal/term/term.go:250-251 | closing requires an open channel, so none is ever closed twice |
| `Terminal.SubscribersSeeOneSlice` | internal/term/term.go:222-278 | in any run a subscriber's snapshot and everything delivered are one contiguous slice of the whole output, up to its end while subscribed, with Exit last |
| `Terminal.ReplayIsTheTail` | internal/term/term.go:229-232 | in any run the replay is exactly the last min(length, 262144) bytes of the output |
| `Terminal.SubscribeStartsAtTheEnd` | internal/term/term.go:257-270 | a new subscriber's slice starts with the replay and ends where the output ends |
| `Terminal.OutputIsWhatWasPrinted` | internal/term/term.go:222-235 | the recorded output is what was read from the terminal, in order |
| `Terminal.ChannelsOnlyGrow` | internal/term/term.go:245-320 | what a channel has accepted is never taken back or reordered, and a closed channel stays closed |
| `Terminal.CloseIsFinal` | internal/term/term.go:302-314 | teardown ends the session, tells everybody with room, and a second teardown changes nothing |
| `Terminal.OutputIsDelivered` | internal/term/term.go:222-254 | in any run a chunk of output is put behind all that the channel of a subscriber with room has accepted, and the subscriber stays; one without room gets nothing, is closed and is gone; nobody else notices |
| `Terminal.SubscribeJoins` | internal/term/term.go:257-278 | a new subscriber changes nothing for the others and joins them unless the session has ended |
| `Terminal.CancelLeaves` | internal/term/term.go:270-277 | cancelling closes one live subscription with nothing more sent and touches no other |
| `Terminal.CloseTellsEverybody` | internal/term/term.go:302-314 | the first teardown sends each subscriber with room exactly the exit notice and closes all their channels |
| `Terminal.CloseOfTheEndedDoesNothing` | internal/term/term.go:302-307 | a teardown of an ended session changes nothing |
| `Terminal.ReceiveTakesTheOldest` | internal/term/term.go:257-278 | receiving takes the oldest chunk and nobody else notices |
| `TerminalManager.SessionsBoundedByOverlap` | internal/term/term.go:125-192 | with at most k >= 1 Create calls between their two critical sections, sessions and pending launches together are at most cap + k - 1 |
| `TerminalManager.OverlapBoundIsAttained` | internal/term/term.go:129-157 | from a new manager some run reaches cap + k - 1 sessions with no launch pending, so with k > 1 the cap alone does not hold |
| `TerminalManager.ShutdownAdmitsNothing` | internal/term/term.go:129-133 | after CloseAll sessions and launches under way never grow in number: nothing more is admitted |
| `TerminalManager.Manager.CheckCap` | internal/term/term.go:129-138 | the first critical section of Create admits exactly while not stopped and below the cap |
| `TerminalManager.Manager.Register` | internal/term/term.go:155-157 | the second one inserts without looking at the cap |
| `FanCurve.Validate` | internal/fans/fans.go:95-134 | settings are accepted exactly if their mode's ranges, sensor, number of points and strictly increasing temperatures are right |
| `FanCurve.CurveDuty` | internal/fans/fans.go:139-154 | the search method computes the curve value |
| `FanCurve.CurveValueIsOnASegment` | internal/fans/fans.go:150-153 | strictly inside its range any curve is evaluated between two neighbours that enclose the temperature, on the line through them; so the divisor is positive |
| `FanCurve.CurveValueIsThePreview` | web/src/pages/Fans.tsx:496-508 | on increasing temperatures the server's binary search and the editor's linear search give the same duty |
| `FanCurve.DutyStaysInBracket` | internal/fans/fans.go:139-154 | the duty lies between those of the enclosing points |
| `FanCurve.DutyHitsPoints` | internal/fans/fans.go:139-154 | at a control point the duty is exactly the point's |
| `FanCurve.DutyIsLinear` | internal/fans/fans.go:139-154 | between two neighbouring points the duty grows in proportion to the temperature |
| `FanCurve.DefaultCurveAtHalfWay` | internal/fans/fans.go:139-154 | the default curve gives 50 at 57.5 degrees, half way between two of its points |
| `FanCurve.DutyOutsideIsFlat` | internal/fans/fans.go:143-149 | before the first and after the last point the duty is theirs |
| `FanCurve.DutyMonotone` | internal/fans/fans.go:139-154 | if the points' duties never fall, a higher temperature never gives a lower duty |
| `FanCurve.ValidDutyIsAPercentage` | internal/fans/fans.go:95-154 | accepted settings give a duty of 0 to 100 at every temperature |
| `FanCurve.TempAt` | web/src/pages/Fans.tsx:448-449 | any mouse position gives a whole temperature on the plot, also before it has a width |
| `FanCurve.DutyAt` | web/src/pages/Fans.tsx:450-451 | and a whole percentage |
| `FanCurve.MouseIsReadToTheNearest` | web/src/pages/Fans.tsx:448-451 | within a plot of at least a pixel the mouse is read off to the nearest degree and percent, and beyond it to the edge |
| `FanCurve.MoveTo` | web/src/pages/Fans.tsx:468-476 | dragging writes the clamped whole temperature and duty into a copy and leaves the other points |
| `FanCurve.DragFollowsTheMouse` | web/src/pages/Fans.tsx:468-476 | a dragged point goes where the mouse is, or one degree from the neighbour in the way, and no other point moves |
| `FanCurve.InsertSorts` | web/src/pages/Fans.tsx:478-487 | adding to a sorted list and sorting is insertion in order |
| `FanCurve.InsertPermutes` | web/src/pages/Fans.tsx:478-487 | adding keeps every other point |
| `FanCurve.AddedPointIsThere` | web/src/pages/Fans.tsx:478-487 | an added point is there unless the curve is full or has a point less than a degree away, and nothing is lost |
| `FanCurve.RemovedPointIsGone` | web/src/pages/Fans.tsx:489-493 | a removed point is gone, the others keep their order, and two always stay |
| `FanCurve.EditsKeepCurveValid` | web/src/pages/Fans.tsx:468-493 | every sequence of drags, additions and removals turns a curve the editor can hold into one the server accepts |
| `FanCurve.DefaultCurveIsEditable` | web/src/pages/Fans.tsx:22-27 | the default curve is such a curve |
| `FanCurve.DragKeepsCurveValidIff` | web/src/pages/Fans.tsx:468-476 | for any valid curve, whole degrees or not, a drag keeps it valid exactly if there is room between the neighbours |
| `FanCurve.DragBreaksACloseCurve` | web/src/pages/Fans.tsx:468-476 | a valid curve of three points on neighbouring half degrees that any drag of the middle one makes invalid |
| `FanHardware.EncodeMonotone` | internal/fans/linux.go:213-219 | a higher percentage never gives a lower PWM value |
| `FanHardware.EncodeRecoversRaw` | internal/fans/linux.go:192-219 | every raw value 0 to 255, read as a percentage and written back, is the same raw value |
| `FanHardware.EncodeErrorIsHalfAStep` | internal/fans/linux.go:192-219 | the percentage read back errs by at most 100/510 |
| `FanHardware.EncodeErrorIsAttained` | internal/fans/linux.go:192-219 | and that error occurs |
| `FanHardware.HwmonFan.SetDuty` | internal/fans/linux.go:195-221 | the whole register and bookkeeping state under any pattern of failing reads and writes |
| `FanHardware.HwmonFan.Release` | internal/fans/linux.go:223-245 | the same for giving the fan back |
| `FanHardware.RunKeepsSaved` | internal/fans/linux.go:195-245 | through any sequence of writes that fail or not, the saved registers of a taken fan are those before the takeover, or empty where that read failed |
| `FanHardware.HistoryLastsUntilRelease` | internal/fans/linux.go:195-245 | for any chip and takeover, until a release succeeds, what was saved and what counts as before the takeover do not move |
| `FanHardware.ReleaseRestores` | internal/fans/linux.go:223-245 | a successful release puts back exactly the registers before the takeover, where the takeover could read them |
| `FanHardware.SetDutyTakesEffect` | internal/fans/linux.go:195-221 | a successful SetDuty leaves the encoded, clamped duty in the PWM register under manual control |
| `FanHardware.SetDutySucceedsIff` | internal/fans/linux.go:195-221 | success exactly if the duty can be written and manual control is there, not needed or can be switched on; what each access leaves; the duty is clamped |
| `FanHardware.ReleaseSucceedsIff` | internal/fans/linux.go:223-245 | success exactly if every saved register can be written, and then they hold what was saved; a fan that is not taken is left alone |
| `FanController.Controller.TickFan` | internal/fans/controller.go:148-188 | what one fan's step of the loop changes and reports |
| `FanController.Controller.Tick` | internal/fans/controller.go:124-201 | a round takes exactly each fan's own step and reports it |
| `FanController.RoundReachesEveryFan` | internal/fans/controller.go:124-201 | a round reaches every fan of the order once and no other, and reports each in its place |
| `FanController.Controller.ReleaseAll` | internal/fans/controller.go:208-221 | every engaged fan, and no other, is released as far as the hardware lets it |
| `FanController.LetGoAllActs` | internal/fans/controller.go:208-221 | every driven fan whose writes work is given back, and no other is touched |
| `FanController.Controller.Set` | internal/fans/controller.go:225-266 | which settings are accepted, and that they are in force even if saving them failed |
| `FanController.EngagedFansAreTaken` | internal/fans/controller.go:152-188 | in any run an engaged fan is taken over |
| `FanController.ReleaseAllRestores` | internal/fans/controller.go:208-221 | if no SetDuty failed partway, a fully successful ReleaseAll leaves the fan untaken at its registers before the takeover |
| `FanController.ReleaseAllForgetsIff` | internal/fans/controller.go:208-221 | after any run, a ReleaseAll whose writes work leaves a fan taken exactly if it was taken without being engaged |
| `FanController.StrandedFansStayTaken` | internal/fans/controller.go:179-187 | a fan that is taken but not engaged is not given back by ticks in auto mode or by ReleaseAll |
| `FanController.PartialFailureStrandsAFan` | internal/fans/controller.go:154-160 | a run whose one failing PWM write leaves a fan taken after a successful ReleaseAll |
| `FanController.MissingSensorDrivesFullSpeed` | internal/fans/controller.go:161-175 | a curve whose sensor is gone drives the fan at full speed and reports the failsafe |
| `FanController.TickActs` | internal/fans/controller.go:148-188 | with working writes a tick drives the fan at the manual duty, at the curve's duty for its sensor or at full speed without the sensor, gives it back in auto mode, and reports exactly that |
| `FanController.FailedTickActs` | internal/fans/controller.go:148-188 | a failed duty write is reported and leaves the register |
| `FanController.WithoutControlNothingIsWritten` | internal/fans/controller.go:148-188 | with control off the registers after any run are those the firmware alone would have left |
| `Backup.TarWriter.Visit` | internal/mc/backup.go:36-103 | what the walk callback does with one path: skip, descend or store |
| `Backup.TarWriter.Walk` | internal/mc/backup.go:36-104 | the walk stores the entries of a directory, parents before children |
| `Backup.TarGzDir` | internal/mc/backup.go:21-124 | the archive's entries, and the file and byte counts reported |
| `Backup.FileCountIsCardinality` | internal/mc/backup.go:86-98 | the count reported is the number of file entries |
| `Backup.ExtractTarGz` | internal/mc/backup.go:133-195 | the extraction loop: the resulting tree or the first error |
| `Backup.ExtractEntry` | internal/mc/backup.go:147-192 | one pass of that loop |
| `Backup.EscapesIff` | internal/mc/backup.go:156-159 | an entry is refused as an escape exactly if its name leads out of the destination |
| `Backup.ExtractedEntryIsThere` | internal/mc/backup.go:160-192 | an entry that is extracted is at its place with its contents; apart from directories above it nothing is new and nothing else changes |
| `Backup.LinkEntryActs` | internal/mc/backup.go:165-175 | a link is made exactly if it leads inside and nothing is in its place, and is passed over otherwise |
| `Backup.BackupRoundTrip` | internal/mc/backup.go:36-194 | archiving any tree and extracting into an empty directory gives the tree without excluded names, special files, and links that are absolute or lexically leave the destination; or the size error exactly if it is too large |
| `Backup.ExtractOverAgreeing` | internal/mc/backup.go:133-194 | extracting the archive over anything that has the same item, or a file for a file, wherever both have one, puts the tree on top |
| `Backup.SmallerLimit` | internal/mc/backup.go:129-192 | a limit changes the outcome only by refusing what is larger |
| `Backup.ExtractionOnlyAdds` | internal/mc/backup.go:147-194 | whatever the archive, no existing path disappears, and at most a file is replaced by a file |
| `FileTree.KeptOfStored` | internal/mc/backup.go:50-66 | what pruning keeps of one stored child is the child and what it keeps below |
| `FileTree.CleanIsAWalk` | internal/mc/backup.go:156-169 | cleaning a joined path leads where its segments lead one after the other |
| `FileTree.KeepsLinkIff` | internal/mc/backup.go:165-175 | a link comes back exactly if it is relative and leads, segment by segment, into the destination |
| `FileTree.LinksWithinAreKept` | internal/mc/backup.go:165-175 | so one that never climbs above the destination does, and absolute ones and those that climb out do not |
| `FileTree.EntriesFollowTheirDirectories` | internal/mc/backup.go:36-103 | every directory is stored before what it holds |
| `Zip.UnzipInto` | internal/mcfiles/zip.go:144-201 | the extraction loop: the resulting tree, the bytes written, and the error if any |
| `Zip.UnzipEntry` | internal/mcfiles/zip.go:153-198 | one pass of the loop: the directories made, the bytes written and the meter, whether opening or copying fails |
| `Zip.EscapesIff` | internal/mcfiles/zip.go:156-162 | an entry is refused as an escape exactly if its name leads out of the destination, and then nothing is touched |
| `Zip.UnzippedEntryIsThere` | internal/mcfiles/zip.go:163-198 | an entry that passes is at its place, whole, and metered |
| `Zip.BudgetHolds` | internal/mcfiles/zip.go:151-194 | for any declared sizes, the total at every loop head is within the budget and at most budget + 1 bytes are ever written |
| `Zip.SuccessIsWithinBudget` | internal/mcfiles/zip.go:151-194 | success implies that the real total is within the budget |
| `Zip.WrappedSizePassesTheEarlyCheck` | internal/mcfiles/zip.go:169-171 | declared sizes of 2^63 and more wrap to negative and pass the first check; only the metering stops them |
| `Zip.ZipRoundTrip` | internal/mcfiles/zip.go:42-198 | zipping any directory or file and unzipping it gives the tree without links and special files, or the size error exactly if it exceeds the budget |
| `Zip.UnzippedIff` | internal/mcfiles/zip.go:42-198 | path by path: every directory and regular file of the source comes back with its contents, and no link does |
| `Zip.FileRoundTrip` | internal/mcfiles/zip.go:57-64 | a single regular file comes back under its own base name in the new directory |
| `Zip.PlainTreesAreKeptWhole` | internal/mcfiles/zip.go:42-103 | for directories and regular files only, that is the whole tree |
| `Restore.Directories.RestoreBackup` | internal/mc/manager.go:519-563 | success installs exactly what was unpacked and keeps the previous directory aside; failure leaves it live, unless install and rollback both failed and it is aside; exactly when it succeeds |
| `Restore.RestoreRecoversBackup` | internal/mc/manager.go:534-545 | restoring a backup into a clean scratch directory installs the backed-up tree as far as archives keep it |
| `Restore.RestoredIff` | internal/mc/manager.go:534-545 | path by path: a clean restore has exactly the directories and files outside the six skipped names, with their contents, and of the links there the relative ones that lead inside |
| `Restore.StaleFilesReachTheServer` | internal/mc/manager.go:534-545 | what a failing RemoveAll leaves in the scratch directory is in the restored server, replaced at most by a file where it was one |
| `Restore.StaleFilesAreHarmlessIff` | internal/mc/manager.go:534-545 | for a backup within the limit, leftovers change nothing exactly if each is at a path of the tree to restore, with the same item or a file on both sides |
| `Restore.LeftoverIsRestored` | internal/mc/manager.go:534-545 | a leftover file that the backup does not have is in the restored server |
| `Properties.ParseProperties` | internal/mc/properties.go:10-24 | the entries of all lines, in order |
| `Properties.PropValueOf` | internal/mc/properties.go:64-71 | the value of the first line with the key, or the empty string |
| `Properties.ParsedEntriesAreGood` | internal/mc/properties.go:13-21 | any key read is trimmed, without "=" and no comment; any value read is on one line without trailing space |
| `Properties.WrittenLineReadsBack` | internal/mc/properties.go:28-48 | key=value of a good pair parses to the pair |
| `Properties.SettingLineIsRead` | internal/mc/properties.go:13-21 | a line that sets a key, with any space before the key, around it and at the end, is read as that key and value |
| `Properties.ReadLineSets` | internal/mc/properties.go:13-21 | and every line that is read is of that form |
| `Properties.SpacedSetting` | internal/mc/properties.go:13-21 | for " motd = x " the key is motd and the value keeps the space before it |
| `Properties.SplitJoin` | internal/mc/properties.go:33-60 | splitting a joined list of lines gives the lines back |
| `Properties.JoinSplit` | internal/mc/properties.go:33-60 | joining the lines of a text gives the text back |
| `Properties.InsertionSort` | internal/mc/properties.go:73-84 | the in-place sort orders the keys and keeps them all |
| `Properties.StrictOrderIsUnique` | internal/mc/properties.go:73-84 | sorted distinct keys are the same list however the map was enumerated |
| `PropertyUpdate.SortedKeys` | internal/mc/properties.go:73-84 | the keys of a map in strictly increasing order |
| `PropertyUpdate.RewriteLines` | internal/mc/properties.go:29-48 | the first loop rewrites the first line of each changed key in place and leaves the others |
| `PropertyUpdate.AppendLines` | internal/mc/properties.go:49-59 | the second loop appends the remaining keys in order |
| `PropertyUpdate.UpdateProperties` | internal/mc/properties.go:28-61 | the result of an update |
| `PropertyUpdate.UpdateIsUnique` | internal/mc/properties.go:28-61 | there is only one such result |
| `PropertyUpdate.PutGet` | internal/mc/properties.go:28-71 | after an update with good keys and values changed keys read back as set and every other key reads as before |
| `PropertyUpdate.PutPut` | internal/mc/properties.go:28-61 | updating the same keys again overwrites: the text is that of the second update alone |
| `PropertyUpdate.UpdateIsIdempotent` | internal/mc/properties.go:28-61 | applying the same change twice equals applying it once |
| `PropertyUpdate.NoChangeIsVerbatim` | internal/mc/properties.go:28-61 | an update without changes gives the text back unchanged |
| `PropertyUpdate.UntouchedLinesSurvive` | internal/mc/properties.go:26-59 | every line stays where and as it was, except the first line of a changed key and a trailing blank line before appended keys, which follow sorted |
| `PropertyUpdate.ReadsBackIff` | internal/mc/properties.go:28-71 | for any key and value at all, setting it reads back exactly if the value is one line without trailing space and the key is good or the value empty |
| `Calendar.NextAtTime` | internal/sched/sched.go:149-158 | the earliest instant strictly after now with the time of day and weekday, for any zone whose dates follow its instants; the return after the loop is unreachable |
| `Calendar.NextInstantIsNext` | internal/sched/sched.go:149-158 | the closed form of the next occurrence meets the same definition and is at most a week ahead |
| `Calendar.NextIsUnique` | internal/sched/sched.go:149-158 | there is only one earliest instant |
| `Calendar.SeventhDayIsNeeded` | internal/sched/sched.go:152-156 | a weekly time that has just passed comes in the eighth iteration, so seven would not do |
| `Calendar.NextMillisAreLater` | internal/sched/sched.go:131-147 | the next occurrence is later than now even in whole milliseconds |
| `Calendar.UtcIsRegular` | internal/sched/sched.go:149-158 | universal time is a zone of the kind assumed |
| `SchedulerSteps.WeekdaysGoRound` | internal/sched/sched.go:149-158 | day 0 is a Thursday and the weekdays go round |
| `Scheduler.NextTimeIsDueNext` | internal/sched/sched.go:130-147 | an interval is that much later; a daily or weekly schedule is next due at the first instant after now with its time of day, on its weekday |
| `Scheduler.IsDueNextIsUnique` | internal/sched/sched.go:130-147 | there is only one such instant |
| `SchedulerSteps.SundayAtFour` | internal/sched/sched.go:130-158 | Sundays at four, asked on Thursday 1970-01-01 at midnight, is three days and four hours later |
| `Scheduler.NextIsLater` | internal/sched/sched.go:131-147 | every recurrence gives a later time, an interval one at least five minutes later |
| `Scheduler.Engine.Collect` | internal/sched/engine.go:78-87 | the loop of tick returns the due items in order and takes back exactly their requests |
| `Scheduler.DueItemsIff` | internal/sched/engine.go:81-86 | the due items are exactly those asked for, or enabled with their time come |
| `Scheduler.DueItemsKeepTheOrder` | internal/sched/engine.go:81-86 | in the order of the list |
| `Scheduler.Engine.Finish` | internal/sched/engine.go:109-131 | the bookkeeping after an execution, for any outcome |
| `Scheduler.Engine.Create` | internal/sched/engine.go:165-182 | what is added, or that nothing is; a failed save is reported though the item is listed |
| `Scheduler.Engine.Update` | internal/sched/engine.go:184-205 | only the first item with the id changes; it keeps its last run and loses retries and request; a failed save is reported though it changed |
| `Scheduler.Engine.Delete` | internal/sched/engine.go:207-217 | only the first item with the id is removed; a failed save is reported though it is gone |
| `Scheduler.Engine.RunNow` | internal/sched/engine.go:221-240 | only the first item with the id is marked |
| `Scheduler.Engine.Load` | internal/sched/engine.go:248-266 | the loaded items, with missed occurrences moved on |
| `SchedulerSteps.CreateActs` | internal/sched/engine.go:165-182 | a created schedule is last in the list, due by its cadence and has not run; nothing else changes but the file |
| `SchedulerSteps.UpdateActs` | internal/sched/engine.go:184-205 | an update replaces what was asked for, keeps last run and result, and is due by the new cadence |
| `SchedulerSteps.FinishActs` | internal/sched/engine.go:109-133 | an execution that ends is the last run; after a success or the third failure in a row the item follows its cadence, after another failure it is tried again in five minutes |
| `SchedulerSteps.DeleteAndRunNowAct` | internal/sched/engine.go:207-240 | deleting takes the item off the list and nothing else; a request marks it and nothing else |
| `SchedulerSteps.TickActs` | internal/sched/engine.go:78-87 | a tick takes back the requests it collects and changes nothing else of any item |
| `SchedulerSteps.RestartActs` | internal/sched/engine.go:248-266 | a start of the panel lists the file: missed occurrences follow their cadence, all else is as written, without retries and requests |
| `SchedulerRuns.RetriesStayBounded` | internal/sched/engine.go:100-131 | in any run retries are the consecutive failures modulo three, so 0 to 2 |
| `SchedulerRuns.ThirdFailureFallsBack` | internal/sched/engine.go:113-131 | after a failure the next run is five minutes on, except after every third in a row, when it is the regular one |
| `SchedulerRuns.NothingIsBackfilled` | internal/sched/engine.go:109-131 | after every execution and every load the next run is strictly after the clock |
| `SchedulerRuns.RestartedPanelIsIdle` | internal/sched/engine.go:248-266 | a tick right after a load collects nothing |
| `SchedulerRuns.CollectedIffAskedForOrDue` | internal/sched/engine.go:81-86 | an item is collected exactly if it is listed and asked for, or enabled and due |
| `SchedulerRuns.IntervalRunsKeepTheirDistance` | internal/sched/engine.go:77-131 | an execution collected by time on an interval starts at least five minutes after every earlier execution of the item, in any run whose restarts find a safe file |
| `SchedulerRuns.NoRestartIsSafe` | internal/sched/engine.go:77-131 | so in any run without a restart |
| `SchedulerRuns.UnsafeRestartBreaksTheDistance` | internal/sched/engine.go:248-266 | the condition is exact: after a restart with an unsafe file, waiting leads to a tick that collects the item less than five minutes after one of its executions |
| `SchedulerRestarts.TimedRunsKeepTheirDistance` | internal/sched/engine.go:77-279 | across any restarts, two executions collected by time, the later on an interval, start at least five minutes apart, if every change was saved and no item was updated while it waited in the queue |
| `SchedulerRestarts.UnsafeStateBreaksTheDistance` | internal/sched/engine.go:248-266 | from every reachable state with an unsafe item a collection that comes too soon is reachable |
| `SchedulerRestarts.UnsavedUpdateIsUnsafe` | internal/sched/engine.go:184-205 | such a state is reached from a first start by an update that could not be saved |
| `SchedulerRestarts.UpdateOfWaitingItemIsUnsafe` | internal/sched/engine.go:184-205 | and, though everything was saved, by an update of an item that waits in the queue |
| `SchedulerRequests.RequestIsHonouredIff` | internal/sched/engine.go:77-98 | after any events up to the next tick, that tick collects an item exactly if a request for it still stands, or it is listed, enabled and due |
| `SchedulerRequests.OneRequestIsHonouredIff` | internal/sched/engine.go:184-240 | one request is honoured exactly if no accepted update, deletion or restart comes before the tick, or the item is due anyway |
| `SchedulerRequests.CollectedJobsStartInOrder` | internal/sched/engine.go:89-97 | whatever is requested, collected items start in their order, and exactly those whose turn comes before the queue is dropped |
| `SchedulerRequests.CollectedJobStartsIff` | internal/sched/engine.go:89-97 | a collected item starts exactly if its turn comes before the queue is dropped; before that it waits, afterwards it is lost |
| `SchedulerRuns.UpdateDropsRequest` | internal/sched/engine.go:197-201 | an update between request and tick: the tick does not run the item |
| `SchedulerRuns.CollectedJobsGoAhead` | internal/sched/engine.go:89-94 | no request takes a collected item out of the queue |
| `SchedulerRuns.DeletedItemStillRuns` | internal/sched/engine.go:89-94 | so a deleted item that was collected still runs |
| `Update.DownloadVerified` | internal/update/update.go:239-276 | success exactly if nothing failed and the body is within the limit, has the checksum and is an ELF file, which is then on disk whole; never more than limit + 1 bytes are written |
| `Update.Client.Apply` | internal/update/update.go:110-178 | a second call is refused without effect; the first thing that fails decides the error; what is left of the three files in each case |
| `Update.BinaryIsNeverLost` | internal/update/update.go:110-178 | in any interleaving of calls, failures and crashes the version in service is at its path or set aside with the path empty, and is the first one or a verified one |
| `Update.OneUpdateAtATime` | internal/update/update.go:114-126 | at most one call is past the flag, and the flag is up exactly while one is |
| `Update.EmptyOnlyIfRollbackFailed` | internal/update/update.go:148-166 | without a crash the path is empty only between the two renames or after an install and its rollback both failed |
| `Update.SuccessInstallsWhatWasVerified` | internal/update/update.go:137-166 | the second rename installs the image that was verified and keeps the previous version |
| `Update.WorkingUpdateInstalls` | internal/update/update.go:110-178 | a call alone for which everything works ends with the verified image in place, the previous binary aside and the flag down |
| `Update.RollBackActs` | internal/update/update.go:155-160 | a rollback that works puts the previous binary back, one that fails leaves it aside |
| `Update.SecondCallIsRefused` | internal/update/update.go:114-119 | a call that enters while another runs is refused and changes nothing |
| `Shutdown.FileListsThoseFoundUp` | internal/mc/manager.go:646-663 | whoever publishes, and whatever goes down or comes up meanwhile, the file lists a server exactly if the publish whose list was renamed into place last, by itself or through the shared temporary file by another, had found the server up; without a replacement it is the saved list |
| `Shutdown.RememberedIff` | internal/mc/manager.go:202-254 | the saved list is in the file exactly if nothing replaced it or the last replacement had found up exactly the servers on it |
| `Shutdown.ForgottenIffReadTooLate` | internal/mc/manager.go:646-663 | a publish that began in the run and whose list came last has read every server, and forgets one exactly if it was down when read |
| `Shutdown.ResumedIff` | internal/mc/manager.go:176-199 | the next start of the panel resumes an unmarked server exactly if the last replacement had found it up |
| `Shutdown.LateReaderForgetsAll` | internal/mc/manager.go:646-663 | if the publish whose list comes last starts to read once all are down and none comes up again, the file is empty |
| `Shutdown.CompletedShutdownForgetsIff` | internal/mc/manager.go:202-254 | a completed shutdown of at least one server has replaced the file, and keeps the saved servers exactly if the last publish had found each of them up |
| `Shutdown.StopForgets` | internal/mc/manager.go:202-254 | a completed shutdown of one server that forgets it |
| `Shutdown.OldPublishRemembers` | internal/mc/manager.go:202-254 | a completed shutdown that keeps the saved list, thanks to a publish that had read before |
| `Shutdown.EarlyReaderRemembersSome` | internal/mc/manager.go:176-254 | a completed shutdown after which one of two servers is resumed |
| `Motd.AppendLegacy` | internal/mc/motd.go:38-81 | the segments added show exactly what the per-character reading shows, none is empty, and there is at most one more than there are codes |
| `Motd.ParseLegacyMotd` | internal/mc/motd.go:30-34 | the same from the empty style |
| `Motd.CodedReadsBack` | internal/mc/motd.go:38-81 | any text without section signs, in any styles codes can name, is what is shown for its coded form |
| `Motd.CodeLaws` | internal/mc/motd.go:55-78 | codes in either case; a colour clears formatting, r restores the base, unknown codes vanish, a trailing section sign is text |
| `Motd.FormatsAddUp` | internal/mc/motd.go:63-71 | two format codes have the same effect in either order |
| `Motd.FullyStyledIgnoresParent` | internal/mc/motd.go:113-123 | a component with all its style fields looks the same under any parent |
| `Motd.SpelledFlags` | internal/mc/motd.go:132-146 | a flag written as "true" or "false" is the boolean |
| `Motd.FlattenComponent` | internal/mc/motd.go:105-129 | nested components show their texts in inherited styles, in order |
| `Motd.MotdFromDescription` | internal/mc/motd.go:92-103 | the filter against empty segments keeps all of them |
| `Motd.WrappingShowsTheSame` | internal/mc/motd.go:105-129 | an array or object around a component changes nothing |
| `Motd.NestedArraysShowFlat` | internal/mc/motd.go:109-112 | arrays within arrays may be opened up |
| `Motd.UnstyledInherits` | internal/mc/motd.go:105-146 | what a component says nothing about is inherited by everything below it |
| `Motd.TextIsShown` | internal/mc/motd.go:122-124 | a component with only a text shows what the text shows |
| `Motd.TextComesBeforeExtra` | internal/mc/motd.go:122-128 | any component shows its own text and then its children, each as alone in its style |
| `Motd.ExtraTakesTheStyle` | internal/mc/motd.go:115-128 | children are shown in the style of the component's own text |
| `Motd.ColorReachesTheText` | internal/mc/motd.go:115-124 | the colour reaches the text and changes nothing else of the style |
| `Motd.FlagsReachTheText` | internal/mc/motd.go:118-124 | so does each of the four flags, set or cleared |
| `Motd.OtherFieldsAreIgnored` | internal/mc/motd.go:113-128 | any other field is as if it were not there |
| `Motd.OnlyStringsAreText` | internal/mc/motd.go:122-124 | a text that is no string is as if it were not there |
| `Motd.OnlyStringsAreColors` | internal/mc/motd.go:115-117 | so is a colour that is none |
| `Motd.OtherValuesShowNothing` | internal/mc/motd.go:105-129 | null, numbers and booleans show nothing |
| `Motd.ColorCodesNameTheColors` | internal/mc/motd.go:23-28 | the sixteen colour codes name the sixteen colours and nothing else is one |
| `Qbit.Client.SignIn` | internal/qbit/qbit.go:360-403 | credentials are sent exactly outside a hold-off; which answers of the server start, end or leave one |
| `Qbit.VerdictIff` | internal/qbit/qbit.go:381-402 | only a 200 with "Ok." accepts a login, and only a 403 or another 200 rejects it |
| `Qbit.Client.Request` | internal/qbit/qbit.go:407-447 | at most two logins and two sends, the second send only after a 403; a 403 is given back only after two sends, each login has a cause, and there is no answer only after a failed login or send or while logging in must wait |
| `Qbit.Client.Fetch` | internal/qbit/qbit.go:147-180 | success exactly if the torrents were fetched last, after the session and, unless known, the version; at most six logins and six sends |
| `Qbit.Client.Status` | internal/qbit/qbit.go:114-144 | the cached snapshot while young enough, else one made in this call; never one older than the last action |
| `Qbit.Client.Files` | internal/qbit/qbit.go:283-299 | success exactly if the last thing was a good answer; at most two logins and two sends |
| `Qbit.Client.TryPaths` | internal/qbit/qbit.go:343-353 | success exactly if the last send was answered 200; the legacy endpoint is tried only after a 404, and a 404 is final only from the last one |
| `Qbit.Client.Do` | internal/qbit/qbit.go:309-354 | the outcome in every case: refused at the door, a faulty action, or 200 from the last send; sent again only after a 403 or 404; the cache is dropped |
| `Qbit.Serve` | internal/qbit/qbit.go:114-447 | for any calls against any server: no login within five minutes of a rejected one, none without a user name, and no poll returns anything fetched before the last action |
| `Watching.EtaIsLeast` | internal/qbit/types.go:132-134 | the estimate is the least number of seconds in which the rest arrives |
| `Watching.NowIffInTime` | internal/qbit/types.go:119-145 | "now" exactly if the rest arrives within nine tenths of the runtime |
| `Watching.VerdictIff` | internal/qbit/types.go:119-161 | which verdict is given when |
| `Watching.NumbersOfTheVerdict` | internal/qbit/types.go:132-148 | the estimate, "now" and the wait told without the formulas, from bytes, speed and nine tenths of the runtime |
| `Watching.WaitCountsDown` | internal/qbit/types.go:136-148 | the verdict after any number of seconds at the same rate |
| `Watching.WaitIsLeast` | internal/qbit/types.go:146-148 | the wait is the least after which the verdict is "now", or "ready" for a runtime of one second |
| `Watching.PlaybackNeverCatchesUp` | internal/qbit/types.go:98-105 | under "now" the part that arrived is at least the part played at every moment, with the promised cushion |
| `Jobs.Job.AppendLine` | internal/jobs/jobs.go:118-127 | output is the last 4000 lines and dropped counts the others |
| `Jobs.Job.Snapshot` | internal/jobs/jobs.go:129-142 | a view shows exactly that |
| `Jobs.Runner.Start` | internal/jobs/jobs.go:70-115 | a job starts exactly if none is running |
| `Jobs.Runner.Finish` | internal/jobs/jobs.go:87-110 | a job gets its one terminal state: canceled if it was cancelled, else failed or done; recent is the last twenty that ended |
| `Jobs.Runner.Serve` | internal/jobs/jobs.go:70-213 | over any sequence of calls the list of terminal states only grows, so a job that ended never changes its state, and no job is lost |
| `Jobs.Runner.Cancel` | internal/jobs/jobs.go:205-213 | only the running job with that id is cancelled |
| `Jobs.Runner.List` | internal/jobs/jobs.go:155-166 | the running job and the last twenty, newest first |
| `Jobs.Runner.Get` | internal/jobs/jobs.go:169-181 | a job is found exactly while it runs or is among the last twenty |
| `Console.PumpOutput` | internal/mc/instance.go:275-300 | the lines handled are those of the whole output, however it was cut into chunks |
| `Console.PrintedLinesComeBack` | internal/mc/instance.go:275-300 | lines printed with any number of carriage returns and a newline each come back as they are, and a last piece without newline too |
| `Console.HandleBuffered` | internal/mc/instance.go:282-290 | the inner loop handles every finished line of the buffer |
| `Console.LogRing.Append` | internal/mc/ring.go:24-40 | the circular buffer keeps the last lines of the history |
| `Console.LogRing.Tail` | internal/mc/ring.go:43-54 | the last min(n, kept) lines, all kept ones for n of zero or less |
| `Console.KeptAfterAppend` | internal/mc/ring.go:27-34 | appending in the circular buffer is appending to the history and keeping its tail |
| `LoginLimiter.Limiter.Allow` | internal/auth/limiter.go:25-29 | the pruned list answers exactly as all failures since the last Reset would |
| `LoginLimiter.Limiter.Fail` | internal/auth/limiter.go:32-36 | the failure is recorded |
| `LoginLimiter.Limiter.Reset` | internal/auth/limiter.go:39-43 | the address starts anew |
| `LoginLimiter.Prune` | internal/auth/limiter.go:45-52 | the pruning loop keeps the instants after the cutoff in order |
| `LoginLimiter.PruneKeepsAgreement` | internal/auth/limiter.go:45-59 | pruning changes no answer for any later cutoff |
| `VarInt.AppendVarInt` | internal/mc/ping.go:149-158 | the loop writes the groups of seven bits |
| `VarInt.ReadVarInt` | internal/mc/ping.go:160-173 | the loop reads them, with its two errors |
| `VarInt.EncodingIsShortest` | internal/mc/ping.go:149-158 | a number takes at most n bytes exactly if it is below 128 to the n |
| `VarInt.VarIntRoundTrip` | internal/mc/ping.go:149-173 | every 32-bit integer takes one to five bytes and reads back with any bytes behind |
| `VarInt.EncodingHoldsTheGroups` | internal/mc/ping.go:149-158 | the groups of seven bits make up the number, and the high bit tells whether another byte follows |
| `VarInt.ReadingSumsTheGroups` | internal/mc/ping.go:160-173 | what is read is what the groups stand for, up to the first byte without its high bit |
| `VarInt.ReadingFailsIff` | internal/mc/ping.go:160-173 | reading fails exactly if none of the first five bytes ends the number |
| `VarInt.WireExamples` | internal/mc/ping.go:149-158 | the bytes of some numbers |
| `VarInt.AcceptedIffShortest` | internal/mc/ping.go:149-173 | what the reader accepts is the writer's encoding exactly if no last group is superfluous and no bit beyond the 32nd is set |
| `VarInt.FrameReadsBack` | internal/mc/ping.go:142-147 | a framed body is found again, and its length exactly if it is a 32-bit integer |
| `Rcon.EncodePacket` | internal/mc/rcon.go:23-33 | the bytes of a packet |
| `Rcon.DecodePacket` | internal/mc/rcon.go:35-52 | what is read from a stream, with its errors and the rest |
| `Rcon.PacketLayout` | internal/mc/rcon.go:23-33 | what stands where in a packet |
| `Rcon.LittleEndianBytes` | internal/mc/rcon.go:23-33 | numbers are written with the least significant byte first |
| `Rcon.RefusedIff` | internal/mc/rcon.go:35-52 | a stream is refused exactly if its length field is out of range or it ends too early |
| `Rcon.PacketRoundTripIff` | internal/mc/rcon.go:23-52 | a packet comes back with any bytes behind exactly if its body has at most 4096 bytes and does not end in NUL |
| `Rcon.FittingPacketReadsBack` | internal/mc/rcon.go:23-52 | a body that fits comes back without its trailing NULs |

## Left out

- HTTP handlers, event streams, cookies, cross-site checks and routing: plumbing around these components.
- Real processes, terminals, sysfs, disks and networks: events, registers, trees, fault choices and arbitrary answers stand for them.
- Regular expressions on console lines: a line is modelled by what they find in it.
- Floating-point rounding in curves, PWM values and estimates: reals and integers are used.
- File permissions, umask, timestamps and the byte formats of tar, gzip and zip: an archive is its list of entries.
- Following links while extracting: an entry that would be written through an existing link is refused in the model; resolving links is the operating system's.
- FanController.Controller.TickFan: reading speed and duty back for display, and the error of that.
- Backup.TarGzDir: errors and cancellation while archiving, which end the call without an archive.
- Zip.ZipRoundTrip: errors while zipping; a file that cannot be opened is stored as empty by the program.
- FanHardware.HwmonFan.SetDuty: register texts are integers, so what an attribute holds beyond its number is not modelled.
- Calendar.NextAtTime: zones in which a local time falls on another date, because a gap swallows it, are assumed away.
- Scheduler.Engine.Create: parsing durations and HH:MM texts, names, actions and targets; a recurrence is given as numbers and target checks as a choice.
- Scheduler.Engine.Load: a missing, unreadable or hand-edited file; it is taken to hold what was saved.
- Restore.Directories.RestoreBackup: assumes that the server is not started between the check and the swap, as the program holds no lock there.
- Update.Client.Apply: finding the executable's path, release metadata and the checksum list; what they yield is a choice, and the hash is any function.
- Shutdown.FileListsThoseFoundUp: the set of known servers does not change during a shutdown, and writing the temporary file is one step that does not fail.
- Qbit.Client.Status: the contents of a snapshot; it is identified by the exchanges it was made from.
- Console.LogRing.Append: subscribers of the log, which lose lines when their channel is full.
- Jobs.Runner.Start: the operation itself, which runs in its goroutine and ends by Finish.
- TerminalManager.Manager.Register: idle reaping, which is one more way to close a session.
- Random identifiers are taken to be fresh, and clocks never to go back.
- The RCON login exchange, status JSON beyond the description, metrics, audit, preferences, mock providers and all pages but the curve editor.
- Manager.Rescan and the override layers: maps rebuilt from directory listings, with no property across steps.
