# Verification of the robot controller's master process

This project models the master process of the robot controller in Dafny and proves what its
guarantees rest on. The master talks to a slave process that moves the arm: through shared memory
(heartbeats, a command block with single-slot mailboxes, the slave's state) and a message queue. It
keeps a rotating log, a JSON configuration file, and a watchdog that ends jogging when the operator's
terminal goes silent.

Check everything with `dafny verify dfyconfig.toml`.

## How it is built

Every part has two sides. A class has the source's fields and methods and changes them in place, loop by
loop (`Log`, `Communication`, `ConfigFile`, `Controller`, `Robot`, `Master`). Beside it, functions on values say what
one call does to the state; each method's `ensures` equates its new state with that function of the old
one. The theorems are about those functions, and about all runs built from them.

| file | part |
|---|---|
| `LogNames.dfy` | names of the log files; `strncmp`, the directory filter, the digit it reads |
| `LogDirectory.dfy` | the directory as a map from names to contents; the rename loop; the scan |
| `LogStore.dfy` | `sign`, rotation, writing, start; class `Log` |
| `LogRuns.dfy` | all runs of writes, restarts and deaths in the middle of a rotation |
| `MessageData.dfy` | shared memory, the message queue, `msgrcv` |
| `Communications.dfy` | heartbeat sampling, the connection status, class `Communication` |
| `Robots.dfy` | joint frames, class `Robot` |
| `Configs.dfy` | reading, merging and rewriting the configuration file |
| `Controllers.dfy` | the controller's operations, class `Controller` |
| `Operations.dfy` | all operator requests as one type; the persisted settings; loading at start |
| `OperationEffects.dfy` | what each operation and the loading leave behind, member by member and key by key |
| `Masters.dfy` | start-up, parameter loading, the tick `robotRun`, class `Master` |
| `MasterRuns.dfy` | all runs of ticks, requests, restarts and slave steps; their invariant; which calls are defined |
| `ConnectionRuns.dfy` | the connection over such runs |
| `MailboxRuns.dfy` | tasks, limits and stop requests over such runs; what a reached target reads |
| `WatchdogRuns.dfy` | jogging and its watchdog over such runs |
| `DataRuns.dfy` | the slave's messages over such runs, up to the position that is read |
| `SettingsRuns.dfy` | the persisted settings over such runs |
| `Publications.dfy` | `createRunTask` and the slave's reading split into single reads and writes, with every other step of the runs in between |
| `LoneCalls.dfy` | such a call left alone, and calls a connection breaks into |
| `LimitPublications.dfy` | the same split for `setUserJointLimit` |
| `JogPublications.dfy` | the same split for `startJogMove` |
| `Options.dfy` | the option type |

## Main results

* **Log.** From any directory, with strays and holes, in every run, what was there plus everything written
  equals the deleted slot-9 files followed by the slots read oldest first. This holds even if the process
  dies between any two renames. If it holds at the start, no slot ever exceeds 1 MB by
  more than one header, and runs whose headers all have one length reach that bound. Likewise, if it holds at the start,
  every rotated-out slot holds more than 1 MB less one body. From slots without holes and strays, as
  in an empty directory, and without a death inside a rotation, once something has been deleted slots 1 to 9
  all exist; such a death leaves a hole exactly between its first rename and the one of slot 0. A restart
  returns to the same state exactly when the slot `sign` points at exists.
* **Connection.** The one-shot events are the edges of the sampled level, and the flag written only on
  events equals the level, exactly for windows of three ticks or more (the source has ten). The sampling
  fields have a closed form. Loss and return are detected within two windows, and
  for either of them one tick less is not enough.
  Across counter overflow a live slave is never reported lost; a sample misses an advance exactly when it is
  a multiple of 2^32.
* **Mailboxes.** Over every interleaving the slave takes each accepted run target, and each set of limits,
  once, in order, with the values asked for: the k-th target is the k-th request moved by its zero, in joint
  space within the limits then in force; the k-th limits are the k-th lists over the limits before them.
* **Split calls.** With `createRunTask` and `setUserJointLimit` split into single reads and writes, the
  slave's reading split likewise, and ticks, other requests and restarts in between, no target and no limits are
  ever taken torn. All calls read one zero (one set of limits, are announced in their own space) throughout exactly if no connection
  brings another zero (no posting other limits, no step another space) under a call that has begun to need them; then the
  targets taken meet their requests as the atomic ones do. Runs that break either condition are given, down to a
  posted target within neither the old limits nor the new. `startJogMove` sets its sign
  first: exactly when a slave can then see a jog nobody ordered is stated for every interleaving and every call.
* **Robot data.** In every run the data messages waiting at the start and those sent are, in this order, those that left the
  queue (each received, or drained by a disconnection or a start) and those still waiting. Since the last
  start the buffer holds the last one received, so that is what every position is read from.
* **Jog watchdog.** In every run the counter is exactly the number of jogging ticks since the last keep-alive, restart or
  firing, across stops and starts, and never passes 100; from count c unattended jogging lasts exactly 100 - c
  more ticks, from a firing on the full 100; a keep-alive at least every 100 ticks and it never fires.
* **Settings.** Run speed, jog speed, control law and planner agree between file and memory after every step
  of every run, and survive a restart over any command memory. For a file that cannot be written the exact
  guard is given. Loading twice changes only the identifier exactly if it is not so that only the second
  load meets a waiting slave and finds a mode that is not a number.
* **Frames.** Over a whole run, an axis standing at the k-th taken joint target reads the k-th request plus the
  zero of its acceptance less the zero now, so the request exactly when that zero has not moved; and no step
  moves it but a restart and a new connection.
* **Defined calls.** With a slave of seven axes every sequence of the terminal's requests is a defined run, and
  the return to zero is always defined. With fewer axes the first call after a start is undefined exactly
  under a stated condition, which a six-axis robot meets.

## Assumptions

* `messageData.h` is not part of this model. Its enumerations for control law, planner and space are
  integers here, because the source casts arbitrary integers to them; joint space is 0 and Cartesian space 1,
  of which only the difference matters. The arrays have 7 joints and 6 Cartesian coordinates, the sizes the
  source's callers and loops use. Heartbeats are 32-bit and wrap.
* The slave counts its heartbeat, reports status, degrees of freedom (at most 7) and name, sends messages,
  takes tasks and clears signs. It writes nothing else.
* Joint values are reals.
* Every call of the master is atomic, except that `Publications.dfy`, `LimitPublications.dfy` and
  `JogPublications.dfy` each split one. There one thread issues that call (a limit is posted only by the
  tick's thread), and any other step of the runs can come between two of its reads and writes. The
  slave clears `runSign` and `newLimit` only after it has read all elements, and only the slave clears
  them; it looks at jog sign, axis and direction at one moment. In `JogPublications.dfy` the rewriting of the file is one step.
* The scan in `startLog` gets the directory's names in any order, each in a 256-character buffer whose rest is arbitrary.
* The date and time strings (log header, `ControllerID`) and the initial content of the message buffer are parameters.

## Where the code differs from what one might expect

* `plannerTaskSpace` of a pending task can still be changed (`MailboxRuns.PendingTaskSpaceChangesIff`), and it
  drifts from the file when a run task is posted in another space (`Operations.SpaceDriftsIff`).
* A connection always loads the zeros, but the limits only when no earlier ones are pending
  (`MasterRuns.ConnectionLoadsLimitsIff`); `MasterRuns.ConnectionCanKeepStaleLimits` is a state where they stay
  behind.
* A connection while a run task is being written moves its coordinates by two different zeros
  (`LoneCalls.ConnectionCanMixZeros`), and one while it is being checked lets a target through that lies within
  neither set of limits (`LoneCalls.ConnectionCanMixLimits`, `LoneCalls.TargetWithinNeitherSlipsThrough`);
  `Publications.CallsReadOnePieceIff` has the exact conditions.
* `createRunTask` reads the slave's status once, first; a slave that stops waiting during the call still gets the
  target (`Publications.StatusIsReadOnce`).
* `startJogMove` sets the jog sign before axis and direction, so a slave that looks in between jogs the
  former axis, or the new axis in the former direction (`JogPublications.SightIsUnorderedIff`,
  `JogPublications.CallMisleadsIff`).
* A start while the slave is not waiting loads the speeds but refuses law and planner
  (`Operations.InitialisedAgreesIff`).
* An unreadable configuration file counts as empty and is overwritten by the next merge
  (`Configs.MergesAreOneOverride`).
* A seven-joint target with a robot of fewer axes reads past the end of the user zero
  (`MasterRuns.SevenJointTaskIsDefinedIff`, `MasterRuns.SixAxisReturnIsUndefined`); such calls are outside the
  runs. So is a refused out-of-limit target of fewer than seven values, whose report prints seven.

## Model

| member | source | states |
|---|---|---|
| LogNames.StrNCmpTestsPrefix | src/wdLog/log.cpp:50-51 | `strncmp` over the length of a literal tests for a prefix of the C string, and then the buffer goes on past it |
| LogNames.CheckLogFileIff | src/wdLog/log.cpp:44-52 | the filter accepts exactly the names that start with some slot's name, whatever follows the terminator, and the digit read is that slot's number |
| LogNames.SlotNameIs | src/wdLog/log.h:2-3 | slot i is the file wdlogi.log |
| LogNames.SlotNameRoundTrip | src/wdLog/log.cpp:44-52 | the name built for slot i is accepted and decodes to i, for i in 0..9 |
| LogNames.SlotNamesDiffer | src/wdLog/log.cpp:75-76 | different slots have different names and none claims another's number |
| LogDirectory.ShiftRangeIsExact | src/wdLog/log.cpp:73-79 | the descending loop, cut off anywhere, moves each covered slot up by one, holes included, replaces no file and touches nothing else |
| LogDirectory.ShiftRangeKeepsText | src/wdLog/log.cpp:73-79 | after any of its renames the slots read oldest first are the same text |
| LogDirectory.RemoveLastSlot | src/wdLog/log.cpp:35-42 | deleting slot 9 takes exactly its text off the front and leaves every other file |
| LogDirectory.TopClaimUnique | src/wdLog/log.cpp:98-106 | the number the scan must find is unique, so the order of the listing does not matter |
| LogStore.Log.StartLog | src/wdLog/log.cpp:88-115 | for any listing order `sign` is the highest number claimed (0 if none) and slot 0 exists |
| LogStore.Log.DelOldLog | src/wdLog/log.cpp:35-42 | removes slot 9 and nothing else |
| LogStore.Log.CheckLogSize | src/wdLog/log.cpp:54-87 | rotates exactly when the body does not fit; new files and `sign` are the specified rotation's |
| LogStore.Log.LogWrite | src/wdLog/log.cpp:117-138 | checks the size with the full body length, then appends the header and then the truncated body to slot 0 (as `LogStore.WriteMovesFiles` spells out) |
| LogStore.VsnPrintf | src/wdLog/log.cpp:130 | the longest part of the text that fits with its terminator, and the full length, which the size check then uses |
| LogStore.StartedIsValid | src/wdLog/log.cpp:88-115 | from any directory, start gives 0 <= sign <= 9, an existing slot 0, nothing above `sign`, and unchanged text |
| LogStore.StartFindsTopSlot | src/wdLog/log.cpp:97-112 | a start changes no file, opens slot 0, and `sign` is the highest slot whose name some file starts with, 0 without one |
| LogStore.RotationIsExactShift | src/wdLog/log.cpp:61-86 | slot i becomes slot i+1 for i <= 8, slot 0 is new and empty, only slot 9 is lost, no rename hits an occupied slot, `sign` grows to at most 9 |
| LogStore.RotationKeepsText | src/wdLog/log.cpp:61-86 | the old text is the old slot 9 (if deleted) followed by the new text |
| LogStore.WriteAppends | src/wdLog/log.cpp:117-138 | a write adds its header and up to 255 characters of its body at the new end and gives up at most slot 9 |
| LogStore.WriteMovesFiles | src/wdLog/log.cpp:54-138 | the file in each slot after a write: the line alone in slot 0 and all others one further exactly if body and slot 0 together pass 1024*1024, else the line at the end of slot 0; no other file changes |
| LogRuns.HistoryRefinement | src/wdLog/log.cpp:54-138 | initial text plus history (each header followed by up to 255 characters of its body) equals the deleted slot-9 files followed by the slots, in every run with restarts and deaths in mid-rotation; `sign` stays in 0..9 |
| LogRuns.SuffixOfHistory | src/wdLog/log.cpp:54-138 | from an empty directory the slots hold exactly the end of the history after the lost part |
| LogRuns.SizeBound | src/wdLog/log.cpp:54-61 | with no slot over 1024*1024 + h at the start and headers of at most h bytes no slot ever exceeds that, whatever the bodies |
| LogRuns.SizeBoundIsReached | src/wdLog/log.cpp:61 | for every h >= 1 some run with headers of at most h bytes, all of exactly h where they fit their 256-byte buffer, reaches that bound, since the trigger does not count the header |
| LogRuns.RestartIsIdentityIff | src/wdLog/log.cpp:97-112 | without stray names a restart changes nothing exactly when slot `sign` exists |
| LogRuns.RestartRestoresSign | src/wdLog/log.cpp:97-110 | in runs without a death in mid-rotation every restart finds the same `sign` |
| LogRuns.RotatedOutSlotsAreFull | src/wdLog/log.cpp:61-84 | if it is so at the start, in every run, deaths included, each rotated-out slot that exists holds more than the limit less one body |
| LogRuns.AfterDeletionAllSlotsExist | src/wdLog/log.cpp:61-84 | without deaths in mid-rotation, once anything was deleted all ten slots exist |
| LogRuns.DeathLeavesHoleIff | src/wdLog/log.cpp:73-79 | from a dense log a death in mid-rotation leaves a hole exactly when a rotation was due and it falls after the first rename and before the one of slot 0 |
| LogRuns.RetentionFromEmpty | src/wdLog/log.cpp:61-84 | the same from an empty directory: after a deletion slots 1..9 exist and each holds more than 1024*1024 - l bytes |
| MessageData.MessageQueue.MsgRcv | src/processCom/communication.cpp:86 | takes the specified message out of the queue, or none |
| MessageData.ReceiveTakesOldestMatch | src/processCom/communication.cpp:86 | the message taken is the oldest that matches the type, the others keep their order, none exactly when none matches |
| Communications.Communication.CreateConnect | src/processCom/communication.cpp:51-53 | a fresh link with the slave's current heartbeat on record and the master heartbeat at 0 |
| Communications.Communication.CheckConnect | src/processCom/communication.cpp:11-24 | the sampled link, and its level as the result |
| Communications.Communication.ClearMsg | src/processCom/communication.cpp:112-122 | empties the queue and counts every message |
| Communications.Communication.ComRecvMessage | src/processCom/communication.cpp:73-111 | the specified link, queue, received data and master heartbeat (as `DataRuns.TickTakesOldestData` spells out), and the status as the result |
| Communications.TickReturnsEdge | src/processCom/communication.cpp:73-111 | from a coupled state, a tick returns exactly the edge of the level and keeps the coupling, for windows >= 3 |
| Communications.AlwaysCoupled | src/processCom/communication.cpp:11-24 | counter and status stay coupled in every run, and the event-driven flag equals the level |
| Communications.EventsAreEdgesIff | src/processCom/communication.cpp:78-105 | events are edges in every run, and the flag is the level in every run, exactly when the window is >= 3 |
| Communications.ShortWindowMissesRise | src/processCom/communication.cpp:78-84 | a concrete run for each smaller window that loses the rise |
| Communications.EventsAlternate | src/processCom/communication.cpp:73-111 | the two events strictly alternate, beginning with the first tick's disconnection |
| Communications.LinkClosedForm | src/processCom/communication.cpp:11-24 | counter, record and level in closed form from the sequence of heartbeats |
| Communications.FrozenIsDetected | src/processCom/communication.cpp:13-23 | two windows of an unchanged heartbeat give not connected, for as long as it lasts |
| Communications.AliveIsDetected | src/processCom/communication.cpp:13-23 | two windows of a heartbeat that changes over each window give connected, for as long as it lasts |
| Communications.FrozenBoundIsTight | src/processCom/communication.cpp:13-23 | one tick less than two windows does not suffice |
| Communications.AliveBoundIsTight | src/processCom/communication.cpp:13-23 | nor does it for the return: a heartbeat that changes over each window can then still count as lost |
| Communications.DisconnectIffInvisibleAdvance | src/processCom/communication.cpp:16-20 | with wrapping counters the level is false exactly when the last window's advance is a multiple of 2^32 |
| Communications.LiveSlaveStaysConnected | src/processCom/communication.cpp:16-20 | a slave advancing by 1 to 2^32-1 a window is connected from the first sample on, and the run's events are just the first disconnection and the connection |
| Robots.Robot.GetpRobotJointPosition | src/robot/robot.cpp:30-39 | the joint position of the buffer in the mechanical frame, or the one that the zero is added to; 0 outside axes 1..7 |
| Robots.Robot.GetpRobotCartesianPosition | src/robot/robot.cpp:40-52 | axes 1..6 are the components of the pose, position before orientation; anything else reads 0 |
| Robots.Robot.constructor | src/robot/robot.cpp:4-9 | a robot with zero vectors of the given length |
| Configs.ConfigFile.SetConfigParam | src/start/start.cpp:46-54 | the file becomes what could be read of it overridden by the new members, or stays if it cannot be written |
| Configs.MergeMembers | src/start/start.cpp:51-52 | the loop over the member names, in any order, is one override |
| Configs.ConfigFile.GetJsonValueFromFile | src/start/start.cpp:14-31 | the file's object, or the empty one and false |
| Configs.ConfigFile.SetJsonValueToFile | src/start/start.cpp:32-44 | replaces the content exactly when the file can be written |
| Configs.MergesAreOneOverride | src/start/start.cpp:46-54 | any sequence of merges equals one left-to-right override, an unreadable file counting as empty |
| Configs.LastUpdateWins | src/start/start.cpp:51-52 | in that override each key has the value of its last update and no other key appears |
| Controllers.Controller.CheckUserJointLimit | src/controller/controller.cpp:224-232 | true exactly when every requested joint is within its limits |
| Controllers.Controller.CreateRunTask | src/controller/controller.cpp:30-67 | the whole new command memory, and acceptance exactly when waiting, not pending and within limits |
| Controllers.Controller.BackToZero | src/controller/controller.cpp:244-248 | a joint task of seven zeros |
| Controllers.Controller.StopRun | src/controller/controller.cpp:68-81 | posts a stop exactly when running and none is pending |
| Controllers.Controller.StartJogMove | src/controller/controller.cpp:84-94 | changes space and starts jogging when the slave waits, otherwise nothing |
| Controllers.Controller.StopJogMove | src/controller/controller.cpp:95-99 | clears the jog sign only; the counter stays |
| Controllers.Controller.ResetJogTimeOut | src/controller/controller.cpp:100-103 | resets the counter only |
| Controllers.Controller.JogCheckTimeOut | src/controller/controller.cpp:104-114 | counts while jogging; past 100 stops it and starts again at 0 (as `WatchdogRuns.CounterCountsJoggingTicks` spells out) |
| Controllers.Controller.ChangeControllerLaw | src/controller/controller.cpp:117-129 | writes file and memory when the slave waits, otherwise nothing |
| Controllers.Controller.ChangePlanner | src/controller/controller.cpp:136-148 | the same for the planner |
| Controllers.Controller.ChangeSpace | src/controller/controller.cpp:154-166 | the same for the space |
| Controllers.Controller.SetRunSpeed | src/controller/controller.cpp:173-179 | clamps to 1..100 and writes memory and file |
| Controllers.Controller.SetJogSpeed | src/controller/controller.cpp:180-186 | the same for the jog speed |
| Controllers.Controller.SetUserJointLimit | src/controller/controller.cpp:197-211 | copies the five lists over the arrays and posts them, unless earlier ones are pending |
| Controllers.Clamped | src/controller/controller.cpp:175 | the value in 1..100 closest to the request |
| Controllers.StdCopy | src/controller/controller.cpp:205-209 | copies a list over the front of an array and leaves the rest |
| Controllers.CopyMoved | src/controller/controller.cpp:51-54 | a joint target moved by the zero over the front of an array, the rest as before |
| Controllers.JointTaskIsWithinLimits | src/controller/controller.cpp:42-55 | an accepted target, seen from the zero, is the request and within the limits; other axes keep theirs; a refused one changes nothing |
| Operations.OperationOnTask | src/controller/controller.cpp:30-67 | an operation touches the run task only by posting one where none is pending |
| Operations.OperationOnStop | src/controller/controller.cpp:68-81 | the stop sign is set exactly by a stop while running, and no operation clears it |
| Operations.OperationOnLimits | src/controller/controller.cpp:197-211 | pending limits are changed by no operation |
| Operations.OperationOnJog | src/controller/controller.cpp:84-103 | which operations start and stop jogging; only the keep-alive resets the counter |
| Operations.OperationOnJogPair | src/controller/controller.cpp:84-94 | no operation but the start of jogging touches axis and direction |
| Operations.OperationKeepsAgreementIff | src/controller/controller.cpp:117-186 | every operation keeps file and memory in agreement if the file can be written, and otherwise exactly those that do not, by their guards, get another value into one of the four settings |
| Operations.SpaceDriftsIff | src/controller/controller.cpp:50-59 | the space leaves the file's value exactly when a task is posted in another space |
| Operations.LoadingIsOneRewrite | src/start/start.cpp:78-90 | the six rewrites of loading come to one new content and one new command memory |
| Operations.InitialisedAgreesIff | src/start/start.cpp:78-90 | loading establishes the agreement exactly when file and slave state allow it, always for a writable file and a waiting slave; speeds end in 1..100 |
| Operations.RestartRestoresSettings | src/start/start.cpp:78-90 | loading over any command memory brings the four values back |
| Operations.LoadingKeepsOtherKeys | src/start/start.cpp:78-90 | every key that is neither a setting nor the ControllerID is kept |
| Operations.LoadedTwiceIff | src/start/start.cpp:78-90 | the same of the roots the two loads leave |
| Operations.SecondLoadChangesOnlyIdIff | src/start/start.cpp:78-90 | loading a second time, with the slave in any state each time, changes no key but the ControllerID exactly if it is not so that only the second load meets a waiting slave and one of law, planner and space is not a number |
| OperationEffects.SettersSetTheirOwn | src/controller/controller.cpp:68-186 | each setter, jog, stop and keep-alive request sets its own member of memory and its own key of the file, under the stated guard, and touches nothing else |
| OperationEffects.SetLimitCoversEachList | src/controller/controller.cpp:200-210 | each of the five lists covers the front of its own array and nothing else changes, unless earlier limits are pending |
| OperationEffects.RunTaskWritesItsArray | src/controller/controller.cpp:30-67 | when exactly a run task is accepted, and that it then writes its space, the front of its own array and the sign, and refused nothing |
| OperationEffects.LoadingSetsMemory | src/start/start.cpp:78-90 | per key: a speed loads as the closest of 1..100, missing or null as 1; with a waiting slave a mode loads as it is, missing or null as 0; nothing else changes |
| OperationEffects.LoadingSetsFile | src/start/start.cpp:78-90 | a writable file then has the stamp and what memory holds, every other key as before; any other file stays as it is |
| OperationEffects.FirstStartLoadsDefaults | src/start/start.cpp:78-90 | without a file: speeds 1, modes 0 or those in memory, and exactly the keys written, six or with a slave not waiting three |
| Masters.ReadRobotParams | src/start/start.cpp:62-72 | the reading loop yields the first dof elements of each list, 0 where missing (as `MasterRuns.ConnectionLoadsEntry` spells out) |
| Masters.Master.StartIPC | src/start/start.cpp:93-120 | a wired master over the found shared memory with an empty queue and a fresh link |
| Masters.Master.InitRobotParam | src/start/start.cpp:56-76 | zeros from the file; limits posted unless earlier ones are pending |
| Masters.Master.InitControllerParam | src/start/start.cpp:78-90 | the specified file and command memory (as `OperationEffects.LoadingSetsMemory` and `OperationEffects.LoadingSetsFile` spell out) |
| Masters.Master.RobotRun | src/start/main.cpp:23-42 | the whole new state of the system after a tick |
| Masters.Start | src/start/main.cpp:62-66 | start-up is the restart step of the runs |
| MasterRuns.ConnectIsLevel | src/start/main.cpp:25-38 | in every interleaved run `connect` equals the sampled level after every step |
| MasterRuns.RobotStays | src/start/main.cpp:25-35 | only a restart and the tick of a new connection change the robot's axes and zeros |
| MasterRuns.TargetsStay | src/controller/controller.cpp:30-67 | no step but a posted run task and the slave's clearing touches the targets or the sign that announces them |
| MasterRuns.JogStays | src/controller/controller.cpp:84-94 | no other step sets the jog sign, the axis or the direction |
| ConnectionRuns.LinkDependsOnHeartbeatsOnly | src/processCom/communication.cpp:73-111 | the link in any run is a function of the heartbeats at its ticks alone |
| ConnectionRuns.SlaveLossIsDetected | src/start/main.cpp:25-38 | after a start, 20 ticks of an unchanged heartbeat clear `connect`, and 20 ticks of a changing one set it |
| ConnectionRuns.LiveSlaveIsNeverLost | src/processCom/communication.cpp:16-20 | after a start, a slave counting 1 to 2^32-1 over each ten ticks has `connect` set exactly from the tenth tick on, across overflow and whatever else happens |
| MasterRuns.ConnectionLoadsLimitsIff | src/start/start.cpp:56-76 | a connection always loads degrees of freedom and zeros as stated, and its limits come into force exactly when none are pending or they are the same |
| MasterRuns.ConnectionLoadsEntry | src/start/start.cpp:56-76 | element by element: each zero and each of the five limits is that of the list of the same name in the entry under the slave's name, 0 where missing, and limits beyond the robot's axes stay |
| MasterRuns.ConnectionCanKeepStaleLimits | src/start/start.cpp:73-75 | a state of the invariant where the connection moves a zero and keeps limits that are not the file's |
| MasterRuns.RestartForgetsProcess | src/start/start.cpp:93-120 | a start has an empty queue, a new link, flag, counters and a robot with zeros of 0, whatever went before |
| MasterRuns.SevenJointTaskIsDefinedIff | src/controller/controller.cpp:51-54 | a seven-joint request is defined exactly when the robot has seven axes or the request is refused before or at the limits |
| MasterRuns.FirstCallIsDefinedIff | src/controller/controller.cpp:32-54 | right after a start from any state: the same in terms of the slave's axes and status, the pending task and the limits |
| MasterRuns.SixAxisReturnIsUndefined | src/controller/controller.cpp:244-248 | the return to zero right after starting a six-axis robot is such an undefined call |
| MasterRuns.SevenAxisRunsAreDefined | src/controller/controller.cpp:244-248 | with a seven-axis slave every sequence of terminal requests, ticks, restarts and slave steps is a defined run, and the return to zero is defined at its end |
| MasterRuns.SevenAxisStart | src/start/start.cpp:113-114 | every start with a seven-axis slave begins such a run |
| MailboxRuns.TasksAreConserved | src/controller/controller.cpp:30-67 | pending + accepted targets = taken + still pending targets, as sequences, over every run |
| MailboxRuns.TakenTargetsMeetRequests | src/controller/controller.cpp:42-63 | the k-th target the slave takes is the k-th accepted request, moved by its zero and within the limits then in force |
| MailboxRuns.ReachedTargetReads | src/robot/robot.cpp:30-39 | in any run, standing at the k-th taken joint target an axis reads the k-th request plus the zero of its acceptance less the zero now, hence the request exactly when that zero component is the same |
| MailboxRuns.ReachedTargetReadsRequest | src/controller/controller.cpp:244-248 | whatever runs after a joint request is accepted, short of a restart or new connection, the reached axis reads exactly the request, 0 for a return to zero |
| MailboxRuns.LimitsAreConserved | src/controller/controller.cpp:197-211 | the same for limits, posted by request or by connection |
| MailboxRuns.LimitsStay | src/controller/controller.cpp:197-211 | no step but a posting touches the limits, and none but that and the slave's clearing their sign |
| MailboxRuns.TakenLimitsMeetLists | src/controller/controller.cpp:197-211 | the k-th limits the slave takes are the k-th lists asked for, by request or from the robot file, over the limits of that moment |
| MailboxRuns.StopsAreConserved | src/controller/controller.cpp:68-81 | the same, counted, for stop requests |
| MailboxRuns.PendingTaskSpaceChangesIff | src/controller/controller.cpp:154-166 | exactly which steps that post no task alter the space, and so that of a pending target |
| WatchdogRuns.JogIsBounded | src/controller/controller.cpp:100-114 | unattended jogging ticks <= counter <= 100 in every run |
| WatchdogRuns.UnattendedJogEnds | src/controller/controller.cpp:104-114 | the counter advances by exactly the ticks, and the tick after the 100th stops the jogging |
| WatchdogRuns.FiringResetsCounter | src/controller/controller.cpp:104-113 | firing leaves the counter at 0, and a tick with jogging off leaves it as it is |
| WatchdogRuns.CounterCountsJoggingTicks | src/controller/controller.cpp:100-114 | in every run the counter is exactly the jogging ticks since the last keep-alive, restart or firing, across stops and starts |
| WatchdogRuns.JogAfterFiringLastsHundredTicks | src/controller/controller.cpp:104-114 | a jog started any time after a firing and left alone lasts through exactly 100 ticks |
| WatchdogRuns.AttendedJogIsNeverStopped | src/controller/controller.cpp:100-114 | with at most 100 ticks between keep-alives the watchdog never fires |
| DataRuns.TickTakesOldestData | src/processCom/communication.cpp:73-111 | a tick that finds the slave connected takes the oldest type-1 message out of the queue into the buffer, the one that reports the disconnection empties the queue, no other touches either, and each counts the master heartbeat |
| DataRuns.DataIsConserved | src/processCom/communication.cpp:86-122 | over every run, data messages waiting and sent equal those that left and those still waiting, as sequences |
| DataRuns.DataIsCounted | src/processCom/communication.cpp:86-122 | in numbers: waiting and sent equal received, drained and still waiting |
| DataRuns.BufferHoldsLastReceived | src/processCom/communication.cpp:86 | since the start the buffer holds the last data message received, or what it held before |
| DataRuns.ReportedTargetReads | src/robot/robot.cpp:30-39 | so when the last message received reports the k-th taken target, an axis reads the k-th request plus the zero of its acceptance less the zero now |
| DataRuns.MasterHeartbeatCountsTicks | src/processCom/communication.cpp:109 | the master heartbeat is the number of ticks, wrapping |
| SettingsRuns.ConfigurationSurvives | src/controller/controller.cpp:117-186 | the agreement holds in every run, restarts included, and a start over any command memory loads the values then in force |
| SettingsRuns.StartSettles | src/start/start.cpp:78-90 | any start with a waiting slave and a writable file establishes the agreement |
| Publications.TasksAreTakenWhole | src/controller/controller.cpp:37-65 | in every interleaving of single reads and writes of both sides with any other steps of the system, the k-th target taken shows every coordinate of the k-th accepted call, in joint space moved by the zeros read for it |
| Publications.StatusIsReadOnce | src/controller/controller.cpp:32-36 | after its first read a call does not depend on the slave's status any more |
| Publications.TakenTargetsAreWithinLimitsRead | src/controller/controller.cpp:224-231 | each joint coordinate taken, seen from the zero read for it, is the one asked for and within the two limits read for it |
| Publications.StepKeepsOnePieceIff | src/start/main.cpp:26-33 | the zeros (limits, space) of calls stop being of one piece at a step exactly if it is a connection with another zero under a joint call being written (a posting of other limits under one being checked, a step that sets another space under one being written or announced) |
| Publications.CallsReadOnePieceIff | src/controller/controller.cpp:51-54 | over every run: one zero (one set of limits, the call's own space) at every state exactly if no such step is ever taken |
| Publications.TakenTargetsHaveOneZero | src/controller/controller.cpp:51-54 | without such a step, each joint coordinate taken is the request plus the zero at the end of its call |
| Publications.TakenTargetsMeetRequests | src/controller/controller.cpp:42-63 | without such a step for zeros or limits, every target taken meets its request as an atomic one does |
| Publications.AnnouncedSpaceIsTheCalls | src/controller/controller.cpp:50-59 | without such a step for the space, whenever a call is announced memory holds its space |
| Publications.IdleIsUntorn | src/controller/controller.cpp:37-41 | any sound state of the system, with or without a pending target, can start such a run |
| LoneCalls.UninterruptedCallIsAtomic | src/controller/controller.cpp:30-67 | run without interruption, the single reads and writes come to the atomic step of the system, and count as one accepted call, with the limits and zeros of that moment, exactly when that step posts one |
| LoneCalls.AdvancesAreLegal | src/controller/controller.cpp:30-67 | and they are a legal run |
| LoneCalls.ConnectionCanMixZeros | src/start/main.cpp:26-33 | a whole run from rest: the tick of a connection after the first write of a return to zero, which is then posted with one coordinate moved by the old zero and six by the new |
| LoneCalls.ConnectionCanMixLimits | src/controller/controller.cpp:224-231 | any target whose first joint lies within the limits in force and the others within those of the connection is posted when the connection comes after the first check |
| LoneCalls.TargetWithinNeitherSlipsThrough | src/controller/controller.cpp:224-231 | there is such a target that lies within neither |
| LimitPublications.LimitsAreTakenWhole | src/controller/controller.cpp:200-210 | in every interleaving of single reads and writes of both sides, the k-th limits taken show every element of the k-th posted lists, over the limits found when their copying began |
| LimitPublications.UninterruptedSettingIsAtomic | src/controller/controller.cpp:197-211 | run without interruption, the single writes come to the atomic operation and count as posted exactly when none were pending |
| LimitPublications.IdleIsUntorn | src/controller/controller.cpp:200-204 | any sound state, with or without pending limits, can start such a run |
| JogPublications.SightIsUnorderedIff | src/controller/controller.cpp:91-93 | in every interleaving the slave sees a jog not ordered exactly when it looks after the sign and before the last write of a call, or of one whose process died there, and the jog found differs: another pair no longer under way, or the new axis in another direction unless that is the jog under way |
| JogPublications.CallMisleadsIff | src/controller/controller.cpp:84-94 | a call can mislead a looking slave exactly if the slave waits and, with jogging off, axis or direction is new, or, with jogging on, both are |
| JogPublications.MisleadsAtIff | src/controller/controller.cpp:91-93 | at which of the writes of a call it does |
| JogPublications.UninterruptedJogIsAtomic | src/controller/controller.cpp:84-94 | run without interruption, the single reads and writes come to the atomic operation, after which the jog asked for is the one ordered |
| JogPublications.IdleIsTidy | src/controller/controller.cpp:84-94 | any sound state can start such a run |

## Left out

- Socket handling, request parsing and replies in `src/teachBoxCom/teachBoxCom.cpp`; its requests are the operations of `Operations.Op`.
- Keyboard, terminal, signal loop, thread creation and the constant table of priorities.
- `shmget`, `shmat`, `msgget` and their failures; the vendored JSON and event libraries.
- Data races between master threads, except as modelled in `Publications.dfy`, `LimitPublications.dfy` and `JogPublications.dfy`, which split one call each and not two at once; memory reordering by compiler or processor.
- File-system failures in the log; a crash inside a single rename or append; the console copy of each line.
- The log's header and body are given texts: time formatting, `vsnprintf` errors and the size of the 256-byte buffer itself are not modelled.
- `LogRuns.RestartRestoresSign`: covers runs without a death in mid-rotation; for all others `LogRuns.RestartIsIdentityIff` says when a restart keeps the state.
- `InitControllerParam`: a setting stored as text makes the JSON library throw; such files are outside the model.
- `getUserJointLimit` (empty body), `closeConnect`, `setZero`, plain getters and pointer setters.
- Floating-point rounding of joint values.
- The slave's planning and control.
