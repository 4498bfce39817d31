# Verification of the hub's automation subsystem

A Dafny model of the parts of `sensor_hub` whose guarantees hold across functions, goroutines and restarts, with proofs of those guarantees. `dafny verify dfyconfig.toml` checks all of it.

| files | what they model |
|---|---|
| `RunTable`, `AutomationRepository` | the run and step tables and the transactions on them: as functions on values, and as the class that updates rows in place, proved to do the same |
| `Executor` | one executor's loop over a run's steps, with others cancelling or deleting the run between any two of its store calls |
| `RunProtocol`, `RunInvariant`, `RunGuarantees`, `RunOrigins` | executors, resume entries, the death of the hub between any two store calls, and startup: the state machine, what every step keeps, what follows for every history, and where everything in the tables comes from |
| `CauseChains` | the loop guard and the cause chains it limits |
| `TimeZones`, `Schedules`, `DueTimes` | zones with clock changes, daily schedules, intervals, catching up after downtime |
| `DueQueue` | the scheduler's heap with back-pointers and key map, refining a map from key to due time |
| `Edges`, `EdgeHistories` | reading triggers: margin, hold and re-arming, and the histories of one trigger, its automation switched off, broken or edited meanwhile |
| `Automations`, `EngineIndexes`, `Engine`, `FiringOrder`, `DuePhases`, `EngineEdges` | the engine's maps under every edit, reading and due entry; the order time triggers fire in; the phase intervals keep through restarts; and the engine's edges refining the histories of each trigger |
| `ReadingQueue`, `ReadingHandOff` | the bounded buffer with its coalescing overflow, and the worker beside it |
| `CommandTracker`, `CommandLifecycle`, `CommandRace` | commands in flight: the tracker's maps and the guarded status updates, each operation run to its end, and acknowledgement, timeout and failure racing for every command |
| `IncreaseQuery` | the increase of a counter by time bucket |
| `HealthHistory` | last known sensor status, and the cleanup that keeps it |

Code that changes state is modelled as classes whose methods are proved against functions or relations on values. Code that runs concurrently is modelled as a state machine built from the same functions, one store transaction, channel operation or critical section a step. Results about a machine are stated for every history of it.

## What turned out otherwise than documented

- `sensor_hub/automation/readings.go:24-26` says a series' readings reach the worker in order. The buffer is found empty at line 80 and the overflow taken at line 81, and readings can arrive in between: if more than fit the buffer do, the newest overtakes them. `OvertakingHappens` is such a history, `OrderedExactlyWhileApart` the exact condition, and `FewReadingsStayApart` shows the 1024 slots to be enough room when no more arrive in between.
- `sensor_hub/db/sensor_repository.go:135-150` writes a checkpoint whose ID is higher than that of a row recorded in the cutoff's own second, so the older status wins that tie. `TieBreaksStatus` is such a case, `CleanupPreservesStatus` the exact condition for one cleanup and `CleanupsPreserveStatus` for any history of recording and cleaning up, for sensors that lines 152-166 give a row although none was recorded, too.
- `sensor_hub/actuation/command_tracker.go:49-51` says the channel of `Await` replaces the one of `Track`. The code, at line 195, adds it, and so does the model: both receive the status.
- `sensor_hub/automation/edge.go:65-82` lets a reading re-arm a trigger and meet its condition at once if the margin is under the tolerance. `MarginSeparates` gives the exact bound.

## Assumptions

- Store writes succeed or the hub dies. Writes are serialised, so a store method is one step; the two reads that fetch a run and its step rows count as one.
- The clock does not run backwards, and moves on between a step's finish and the start of the next. Arming a trigger is one step with its reading of the clock: a zone change or an edit stalled in between could put in a due time the scheduler has already passed.
- A zone is a list of changes at least a day apart, each by less than 12 hours, with offsets of whole minutes. Where a local time names two instants or none, the library may pick either side at any call.
- Readings are observed by one worker, one at a time, with a time noted before the engine's lock is taken.
- IDs are positive and never reused. An automation edited gets new triggers, so an ID names one trigger for good. Nothing deletes a command still pending.
- Where a command's sending, a sensor's state or an outcome channel decides, the model takes any answer: what is sent may fail before or after it is recorded, and any verdict may come.

## Model

| member | source | states |
|---|---|---|
| RunTable.AdmitKeeps | sensor_hub/db/automation_repository.go:162-190 | admitting a run, in either mode, keeps the tables' invariant and leaves the automation with one active run, which has the steps, automation and start it was admitted with and has done none of them; it is skipped exactly in single mode with a run active; in restart mode exactly the active runs are cancelled, at that moment, and no other run changes |
| RunTable.CancelAllKeeps | sensor_hub/db/automation_repository.go:231-241 | cancelling ends exactly the runs named, and with them at that moment their steps still running; no outcome already recorded changes, and no other run |
| RunTable.InsertKeeps | sensor_hub/db/automation_repository.go:243-272 | a new row, active only if the automation has no active run, has the next ID, the automation, steps, status, start and finish given and no step rows, and keeps the invariant; no other run changes |
| RunTable.StartedRunKeeps | sensor_hub/db/automation_repository.go:299-317 | starting the step after the last, once all have succeeded, adds its row, running from that moment, and keeps all before it and the run's invariant |
| RunTable.RowFinishedKeeps | sensor_hub/db/automation_repository.go:319-331 | a running step takes the outcome at that moment; one cancelled with its run stays cancelled; the command is recorded either way |
| RunTable.WaitingRunKeeps | sensor_hub/db/automation_repository.go:352-366 | a run set waiting is on an unfinished wait, and its resume time is the wait's start plus its length |
| RunTable.ResumedRunKeeps | sensor_hub/db/automation_repository.go:368-386 | the unguarded update of the step rows in a resume touches one row, the unfinished wait; no terminal outcome changes, and every step has then succeeded |
| RunTable.FinishedRunKeeps | sensor_hub/db/automation_repository.go:433-438 | a run closed as succeeded after its last step, or as failed at a failed step, keeps the invariant |
| RunTable.FinishRunCloses | sensor_hub/db/automation_repository.go:433-438 | the end given is recorded at the moment given, and nothing else of the run changes |
| RunTable.OtherRunsAreLeft | sensor_hub/db/automation_repository.go:299-386 | each transaction takes hold only of its own run, and only while that is running, or waiting for a resume |
| RunTable.CancelDecides | sensor_hub/db/automation_repository.go:192-211 | a cancel is refused as not found exactly for a run of another automation or none, as not active exactly for one that is over, and otherwise ends the run |
| RunTable.DeleteRunsKeeps | sensor_hub/db/automation_repository.go:440-448 | deleting runs removes them and no others, keeps the invariant, and their IDs do not come back |
| AutomationStore.AutomationRepository.AdmitRun | sensor_hub/db/automation_repository.go:162-190 | the loop over active runs changes the tables exactly as the specified admission does, and reports it: the new run has the steps, automation and start given |
| AutomationStore.AutomationRepository.ActiveRunIds | sensor_hub/db/automation_repository.go:213-229 | exactly the automation's running and waiting runs |
| AutomationStore.AutomationRepository.CancelOne | sensor_hub/db/automation_repository.go:231-241 | the run's row and, of its step rows, exactly those still running are cancelled |
| AutomationStore.AutomationRepository.CancelRun | sensor_hub/db/automation_repository.go:192-211 | not found for another automation's run, not active for an ended one, otherwise cancelled; nothing changes on an error |
| AutomationStore.AutomationRepository.CreateRun | sensor_hub/db/automation_repository.go:158-160 | inserts one row under the next ID, with the automation, steps, status, start and finish given and nothing done |
| AutomationStore.AutomationRepository.StartRunStep | sensor_hub/db/automation_repository.go:299-317 | refuses a run that is gone without changing anything, otherwise moves the run on and adds the step's row |
| AutomationStore.AutomationRepository.FinishRunStep | sensor_hub/db/automation_repository.go:319-331 | records the command always, the outcome only of a step still running |
| AutomationStore.AutomationRepository.WaitRun | sensor_hub/db/automation_repository.go:352-366 | sets a running run waiting with its wait's row in one transaction, or changes nothing |
| AutomationStore.AutomationRepository.ResumeRun | sensor_hub/db/automation_repository.go:368-386 | sets a waiting run running and finishes every row at its current step, or changes nothing |
| AutomationStore.AutomationRepository.FinishRun | sensor_hub/db/automation_repository.go:433-438 | closes a running run, or changes nothing |
| AutomationStore.AutomationRepository.DeleteRunsOf | sensor_hub/db/sensor_repository.go:271-277 | a run goes exactly if its automation is one of those deleted, and the others stay as they are |
| AutomationStore.AutomationRepository.DeleteRunsFinishedBefore | sensor_hub/db/automation_repository.go:440-448 | a run goes exactly if it is over and finished before the cutoff, and the others stay as they are |
| Executors.Executor.Execute | sensor_hub/automation/executor.go:48-88 | whoever cancels or deletes the run meanwhile, it is left waiting at its first wait, failed at its first failed step, succeeded with every step done, gone, or stopped before or at a step; each set step settled has the outcome and command of its own, an interrupted one those of the command it sent before, and no wait is passed over |
| Executors.Executor.ExecuteStep | sensor_hub/automation/executor.go:109-128 | starts the step unless the run is gone or the executor is stopped while a cancelled run's command is still in flight, and leaves it settled, failed, or interrupted where it is |
| Executors.Executor.SettleInterrupted | sensor_hub/automation/executor.go:155-186 | a step already settled keeps its outcome; an unfinished one takes that of the newest command it recorded, and is sent only if it recorded none |
| Executors.ResultsFollow | sensor_hub/automation/executor.go:163-185 | the step a run stood at takes what became of the newest command of the run for its sensor and property since it started, if there is one; without one, and for later steps, what sending comes to |
| Executors.Executor.FinishStep | sensor_hub/automation/executor.go:194-209 | an interrupted step is left running, any other takes the outcome it was given |
| Executors.Executor.Wait | sensor_hub/automation/executor.go:211-228 | the run waits until the time returned, or is gone |
| RunProtocol.LatestRunCommand | sensor_hub/db/automation_repository.go:403-415 | the newest command of the run for the step's sensor and property since the step started, and none only if there is none |
| RunProtocol.CurrentRow | sensor_hub/automation/executor.go:90-97 | a row at the run's current step exactly if there is one |
| RunInvariant.StepKeeps | sensor_hub/automation/engine.go:497-531 | every action of the hub (store step of a driver, admission, cancel, pop, delete, crash, start) keeps the protocol's invariant and lets runs only evolve |
| RunGuarantees.AlwaysEvolves | sensor_hub/db/automation_repository.go:192-438 | between any two moments of a history terminal run statuses and step outcomes are the same |
| RunGuarantees.StepsStartInOrder | sensor_hub/automation/executor.go:72-86 | positions start in order 1, 2, 3, ..., none after one that has not succeeded, and a succeeded run has a success at every position |
| RunGuarantees.StepsStartOnce | sensor_hub/automation/executor.go:48-88 | a position once started keeps its row and start, so it starts once, and current_step never goes back |
| RunGuarantees.EndedRunsStayEnded | sensor_hub/automation/executor.go:109-128 | after a committed cancel, or any other end, no step starts and the status stays |
| RunGuarantees.WaitsLastTheirTime | sensor_hub/automation/executor.go:211-228 | a wait that is over lasted at least its length, however often the hub died during it |
| RunGuarantees.VerdictDecidesStep | sensor_hub/automation/executor.go:153-209 | if the hub does not die in between, the verdict given while a step awaits its own command is what is recorded for the step, with that command, and what the executor acts on; a step cancelled meanwhile stays cancelled |
| RunGuarantees.StepRecordsOwnCommand | sensor_hub/automation/executor.go:194-209 | a finished step records the command its own step sent, if any, with the outcome unless the run was cancelled |
| RunGuarantees.SendersWereAdmitted | sensor_hub/actuation/command_tracker.go:149 | a command's run was admitted and has started the step the command is of: it was not skipped, missed or refused |
| RunGuarantees.UnstartedRunsSendNothing | sensor_hub/automation/engine.go:455-480 | a run that was over before it started a step never sends a command, however long the history goes on |
| RunGuarantees.NoSecondCommand | sensor_hub/automation/executor.go:155-186 | each position of each run has at most one recorded command, however often the hub dies between recording the step, sending and finishing |
| RunGuarantees.RecoveryTakesOwnCommand | sensor_hub/automation/executor.go:163-185 | the lookup by run, sensor, property and time finds the very command the interrupted step sent, and none only if it sent none |
| RunGuarantees.RecoveryGoesOn | sensor_hub/automation/executor.go:163-185 | from there the driver goes on to await that command's outcome, and sends only if the step sent none |
| RunGuarantees.RecoveredStepTakesVerdict | sensor_hub/automation/executor.go:177-185 | so an interrupted step whose command was recorded takes the verdict given on it after the restart: acknowledged, it succeeded and the run goes on |
| RunGuarantees.SendingRecords | sensor_hub/automation/executor.go:130-153 | sending records one command with the run and what its step sets, unless it fails before that, and the driver awaits it or takes the failure for the outcome |
| RunGuarantees.StartupDrives | sensor_hub/automation/engine.go:99-114 | at startup a wait that is not over goes to the scheduler with its resume time, one that is over is resumed, and a running run is carried on from its row |
| RunGuarantees.EntriesAreTakenOut | sensor_hub/automation/engine.go:504-525 | a due resume entry is taken out for a goroutine that resumes its run, a cancelled run's entry is dropped, and no other entry changes |
| RunGuarantees.WaitsUntilTheirTime | sensor_hub/automation/executor.go:211-228 | a waiting run's resume time is its wait's start plus the step's seconds |
| RunGuarantees.GoneRunsAreDropped | sensor_hub/automation/executor.go:72-128 | a driver that finds its run cancelled or deleted when it goes to the store stops there and changes nothing |
| RunGuarantees.NothingIsBarred | sensor_hub/automation/engine.go:146-163 | while the hub is up anyone may admit, record, cancel or delete anything, the hub may die at any time, and then starts again |
| RunGuarantees.StepsCanStart | sensor_hub/automation/executor.go:72-86 | a driver at a step can take it at any time after the steps before ended |
| RunGuarantees.ExactlyOneDriver | sensor_hub/automation/engine.go:514-531 | while the hub is up every running or waiting run has exactly one driver, a goroutine or a resume entry carrying its resume time |
| RunGuarantees.OneActiveRun | sensor_hub/db/automation_repository.go:162-190 | no automation ever has two active runs |
| RunGuarantees.StaleResumeDoesNothing | sensor_hub/automation/engine.go:514-525 | a resume entry left by a cancelled or deleted run never restarts it |
| RunGuarantees.DriverProgresses | sensor_hub/automation/executor.go:72-86 | each step of a driver ends it or brings it nearer its end, the steps left being the measure |
| RunOrigins.RunChanges | sensor_hub/automation/engine.go:423-531 | what each action does to each run, field by field: a request makes one run, a cancel or a restart ends it early, its own driver starts, settles, resumes or closes it, and nothing else touches it |
| RunOrigins.RunsWereRequested | sensor_hub/db/automation_repository.go:243-272 | every run was put in the table by one request, with its automation and steps, at the time it started, to be done or skipped as the mode says |
| RunOrigins.EndsHaveCauses | sensor_hub/db/automation_repository.go:231-241 | every run that is over was ended, at the moment recorded, by what its status says: its driver past the last step or at a failed one, a cancel or a restart of its automation, or the request itself |
| RunOrigins.StepsWereStarted | sensor_hub/db/automation_repository.go:299-317 | every step's row was made by the run's driver as it came to that step, at the start recorded |
| RunOrigins.OutcomesWereLearned | sensor_hub/automation/executor.go:109-209 | a set step that succeeded or failed has the outcome its driver learned for it, at the moment recorded: with a command, exactly as the verdict given on that command was, or as a failure to send it; without one, because sending failed before it was recorded |
| RunOrigins.OtherOutcomes | sensor_hub/db/automation_repository.go:368-386 | a wait is over since its run was resumed, and a cancelled step ended at the moment its run was cancelled |
| RunOrigins.CommandsAreKept | sensor_hub/actuation/command_tracker.go:155 | a command stays in the log as recorded, and stays its run's as long as there is the run |
| RunOrigins.CommandsWereSent | sensor_hub/automation/executor.go:130-153 | every command was recorded by its run's driver as it came to send that step, with the sensor, property and value the step sets |
| RunOrigins.EachStepSendsOnce | sensor_hub/automation/executor.go:155-186 | in a whole history no step of any run records two commands, even if the run is deleted in between |
| RunOrigins.SuccessMeansAllWasDone | sensor_hub/automation/executor.go:48-88 | a run marked succeeded did all it was admitted with: each set step had its own command acknowledged, and each wait lasted its seconds |
| CauseChains.ChainIsFirstAncestors | sensor_hub/db/automation_repository.go:274-297 | the depth-limited query gives exactly the first ancestors, as many as the limit |
| CauseChains.ChainsStayWithinLimit | sensor_hub/automation/engine.go:423-480 | every run ever executed has at most as many runs on its cause chain, itself included, as the limit its own guard read from the configuration, although guard and admission are separate transactions |
| CauseChains.HighestLimitHolds | sensor_hub/automation/engine.go:455-466 | however the limit is changed, no executed run's chain is longer than the highest limit any guard read |
| CauseChains.GuardRefusesFullChains | sensor_hub/automation/engine.go:455-466 | the guard refuses exactly the runs whose cause ends a chain as long as the limit it reads |
| CauseChains.OnlyExecutedRunsLead | sensor_hub/actuation/command_tracker.go:149 | all runs on a chain but its newest were executed, refused and skipped runs sending no command |
| CauseChains.DeletedShrinks | sensor_hub/db/automation_repository.go:440-448 | deleting runs cuts each chain at the first deleted run on it and nowhere else, and leaves chains acyclic |
| CauseChains.StepStarts | sensor_hub/automation/engine.go:411-480 | a run started for a reading has the run whose command the reading acknowledged for its cause, so its chain is one longer, unless that run is gone; refused runs are recorded, and only admitted ones count as executed |
| CauseChains.CausedRunsWereTriggered | sensor_hub/automation/engine.go:411-421 | every run with a cause was started for a reading that acknowledged a command of that cause |
| TimeZones.FirstIsLeast | sensor_hub/automation/schedule.go:40-71 | the instant found by the zone's changes is the least whose wall clock shows the local time or later |
| TimeZones.DateCases | sensor_hub/automation/schedule.go:46 | the library's naming of a local time gives one of two instants, in a gap and in an overlap |
| TimeZones.SidesDiffer | sensor_hub/automation/schedule.go:46 | where a local time names no instant or two, the library may pick either of two different instants, and otherwise there is one |
| TimeZones.DateShowsLocal | sensor_hub/automation/schedule.go:46 | naming a local time gives an instant that shows it, whenever there is one |
| TimeZones.ShownAtMostTwice | sensor_hub/automation/schedule.go:57-70 | no local time is shown at more than two instants |
| TimeZones.WallShows | sensor_hub/automation/schedule.go:56-62 | wall clocks show the base offset before the first change, and from each change on that change's until the next |
| Schedules.WallClockIsLeast | sensor_hub/automation/schedule.go:40-71 | for every zone and whichever side the library picks, the least instant whose wall clock shows the day's time or later: the end of a gap, the first of two showings |
| Schedules.WallClockIsFirst | sensor_hub/automation/schedule.go:40-71 | all branches agree with the zone's changes |
| Schedules.NextAfter | sensor_hub/automation/schedule.go:25-38 | the least scheduled instant after t over all selected days, on the eighth day after t's at the latest; there is only one such instant, so it is the same whichever sides the library picks |
| Schedules.NoonNamesDay | sensor_hub/automation/schedule.go:28-29 | noon names its day even where clocks change at noon |
| Schedules.DaysAreDueInOrder | sensor_hub/automation/schedule.go:25-38 | a later day is due later, whatever the clocks do |
| Schedules.NextAfterDueIsNextDay | sensor_hub/automation/schedule.go:40-42 | from a scheduled instant the next is that of the next selected day |
| Schedules.EveryNightOnce | sensor_hub/automation/schedule.go:40-42 | a chain of next occurrences visits every selected day exactly once |
| Schedules.EighthDayNeeded | sensor_hub/automation/schedule.go:25-38 | a zone, schedule and time for which the seven days from t's own all come due too early |
| Schedules.WeekdaysOf | sensor_hub/automation/schedule.go:11-17 | the set of the days given, in whatever order and however often |
| Schedules.BitsAreDays | sensor_hub/automation/schedule.go:5-9 | the lowest bit of the mask is Sunday, the next Monday and so on, and a mask has the days of its bits |
| Schedules.WeekdaysGoRound | sensor_hub/automation/schedule.go:30 | day 0, 1 January 1970, is a Thursday, and the days of the week follow each other, Sunday after Saturday |
| Schedules.OneDayAWeek | sensor_hub/automation/schedule.go:30 | a schedule for one day of the week is due on exactly the days a whole number of weeks from one known to be that day |
| Schedules.DueOnSteadyClocks | sensor_hub/automation/schedule.go:25-38 | where clocks never change, a schedule is next due at the first instant after t at which they show its minute of the day on a day of its mask, written out in nanoseconds |
| DueQueue.Scheduler.Set | sensor_hub/automation/scheduler.go:51-63 | the heap with back-pointers acts as the map from key to due time with one entry set; ordered, indexed and in step with the key map |
| DueQueue.Scheduler.Remove | sensor_hub/automation/scheduler.go:65-73 | as the map with the key removed |
| DueQueue.Scheduler.PopDue | sensor_hub/automation/scheduler.go:132-142 | removes exactly the keys due by now, each once, in order of due time, and leaves the rest |
| DueQueue.Scheduler.Due | sensor_hub/automation/scheduler.go:75-83 | the map's due time for the key |
| DueQueue.Scheduler.Earliest | sensor_hub/automation/scheduler.go:123-130 | the least due time in the map, none exactly if it is empty |
| DueQueue.Scheduler.Up | sensor_hub/automation/scheduler.go:150-158 | sifting up restores the heap and its indexes |
| DueQueue.Scheduler.Down | sensor_hub/automation/scheduler.go:150-158 | sifting down restores the heap and its indexes |
| DueQueue.Scheduler.RemoveAt | sensor_hub/automation/scheduler.go:65-73 | removing from the middle keeps heap and indexes |
| DueTimes.IntervalDueIsNext | sensor_hub/automation/engine.go:381-387 | an interval's next due time is the least in phase that is after the moment given |
| DueTimes.IntervalKeepsPhase | sensor_hub/automation/engine.go:379-389 | however late or early it is re-armed, an interval stays in phase with its first due time; re-armed early it is due when it was, re-armed late an interval later at the soonest |
| DuePhases.PhaseIsKept | sensor_hub/automation/engine.go:241-253 | over any number of pops, fires, holds, readings, changes of zone, edits of other automations, deaths and startups, every due time of an interval trigger, scheduled, popped or saved, is in phase with its first |
| Engines.Restart | sensor_hub/automation/engine.go:57-89 | a new life of the hub arms each interval trigger in phase with what the store kept of the last |
| DueTimes.NextDue | sensor_hub/automation/engine.go:381-389 | the next due time of a time trigger, always after the moment given |
| DueTimes.LastDueBefore | sensor_hub/automation/engine.go:117-129 | the catch-up loop ends with the greatest occurrence at or before now |
| DueTimes.LastOccurrenceOfInterval | sensor_hub/automation/engine.go:117-129 | for an interval that is first + floor((now - first) / interval) * interval |
| DueTimes.OverdueTriggers | sensor_hub/automation/engine.go:69-84 | exactly one missed record for each trigger past grace, and at most one catch-up run, for the first trigger due in [now - grace, now] |
| Edges.MarginSeparates | sensor_hub/automation/edge.go:65-86 | a reading that re-arms can meet the condition exactly if the margin is under the tolerance |
| Edges.TestTells | sensor_hub/automation/edge.go:64-82 | a rise is met by exactly the numbers above the threshold and re-armed by exactly those at or below it less the margin plus the tolerance, a fall the other way round, and a text by exactly the same text but for the case of letters; a reading without such a value tells nothing |
| Edges.RisesAndFalls | sensor_hub/automation/edge.go:77-81 | what meets a rise is met by every higher reading, what re-arms it is re-armed by every lower one, the threshold itself does not meet it, and a fall is its mirror image |
| Edges.Edge.Observe | sensor_hub/automation/edge.go:30-51 | unusable readings change nothing; a spent edge is only re-armed; an armed one fires at once or begins its hold, which a reading that does not meet the condition releases |
| Edges.Edge.HoldElapsed | sensor_hub/automation/edge.go:55-62 | the edge is spent, and says so, exactly if it holds until that very due time |
| EdgeHistories.HoldsInFull | sensor_hub/automation/edge.go:30-62 | a hold fires only if the reading that began it met the condition and every usable one since did, no sooner than the hold after it, with that reading's cause |
| EdgeHistories.OnlyMetReadingsFire | sensor_hub/automation/edge.go:30-51 | without a hold only a reading beyond the threshold, or of the condition's text, fires, and with one only the hold does |
| EdgeHistories.RearmsBetweenFires | sensor_hub/automation/edge.go:30-51 | between two fires lies a re-arming reading, back across the threshold by the margin, which cannot meet the condition itself if the margin is at least the tolerance, or the trigger was dropped and armed anew |
| EdgeHistories.ArmedTriggerAnswers | sensor_hub/automation/edge.go:30-51 | an armed trigger answers the first reading that meets its condition; a spent one answers none |
| EdgeHistories.HoldsExactlyWhile | sensor_hub/automation/edge.go:30-62 | an edge is spent exactly since a fire it was not re-armed from, and holds exactly while a reading has held that met the condition and found it not spent; unusable readings change neither |
| EdgeHistories.NoHoldIsLost | sensor_hub/automation/engine.go:363-377 | a standing hold has its due scheduled or popped, and handing that over fires it |
| EngineEdges.EngineRefinesEdges | sensor_hub/automation/engine.go:328-377 | whatever the engine does in one life of the hub (startup, edits, forgetting, changes of zone, pops, fires, readings, holds), each reading trigger goes through a history of its own: given exactly the readings of its series while it was armed and the holds handed over for it, in order, and dropped only by an edit of its automation; so what holds of every such history holds of the engine |
| EngineEdges.EngineHoldsInFull | sensor_hub/automation/engine.go:345-377 | in every life of the engine an edge holds only for a reading its trigger was given, which met the condition, with every usable reading given since meeting it too; the hold ends its full length after that reading, has its cause, and its end is scheduled or popped |
| Engines.FiresAreStarted | sensor_hub/automation/engine.go:337-360 | a reading that fires a trigger in its own history starts a run of its automation, and a run started for a trigger fired it, with the reading's cause |
| EngineIndexes.SeriesIsListed | sensor_hub/automation/engine.go:337-338 | a series' list holds each trigger armed on it once, and each has an edge and an armed automation |
| Engines.Engine.Load | sensor_hub/automation/engine.go:57-98 | all indexes agree with the automations; each time trigger of an armed one is armed for its first time after now, counting from the due time saved; and what was missed and is caught up with is exactly what each automation calls for |
| Engines.Engine.Put | sensor_hub/automation/engine.go:131-144 | indexes agree again; switching on forgets the saved due times, so its intervals are due one interval from now, otherwise each trigger counts from when it was due; no other automation's edges, holds or due times change |
| Engines.Engine.SetBroken | sensor_hub/automation/engine.go:167-177 | only the reason changes, and the indexes follow it |
| Engines.Engine.Forget | sensor_hub/automation/engine.go:146-150 | the automation and all its traces are gone |
| Engines.Engine.ForgetUsing | sensor_hub/automation/engine.go:152-163 | exactly the automations with a trigger reading the sensor or a step setting it are forgotten |
| Engines.Engine.SetZone | sensor_hub/automation/engine.go:179-198 | every armed schedule is armed for its next time on the new clock, and nothing else moves |
| Engines.Engine.DropLocked | sensor_hub/automation/engine.go:257-277 | indexes agree without the automation, no other entry touched |
| Engines.Engine.PutLocked | sensor_hub/automation/engine.go:222-228 | indexes agree with the automation |
| Engines.Engine.ArmLocked | sensor_hub/automation/engine.go:230-247 | every time trigger of an armed automation gets its next due time after now |
| Engines.Engine.PopDue | sensor_hub/automation/scheduler.go:115-117 | what is popped is pending until it is handed over |
| Engines.Engine.FireTrigger | sensor_hub/automation/engine.go:295-316 | a popped trigger is armed again for after now and starts a run unless its due time already did, only of an automation that is enabled and not broken; a disarmed one does nothing |
| Engines.Engine.FireHold | sensor_hub/automation/engine.go:363-377 | a standing hold starts a run of the armed automation that has the trigger, with the hold's cause; any other does nothing |
| Engines.Engine.Observe | sensor_hub/automation/engine.go:328-361 | every trigger armed on the series sees the reading as its edge stood, no other changes, and each automation with a trigger that fires, enabled and not broken, is started once |
| Engines.Engine.NextFireAt | sensor_hub/automation/engine.go:206-220 | the least due time of the automation's triggers, none exactly if it has none or is not armed |
| FiringOrder.DuesInOrder | sensor_hub/automation/engine.go:295-316 | due times fired for an automation never go backwards, and those of one trigger strictly increase |
| FiringOrder.OneRunPerDue | sensor_hub/automation/engine.go:293-313 | triggers sharing a due time start one run between them unless the automation is edited in between |
| FiringOrder.EveryDueStarted | sensor_hub/automation/engine.go:306-315 | no fire is taken for a duplicate unless a run was started for its due time |
| ReadingQueue.ReadingConsumer.Consume | sensor_hub/automation/readings.go:47-70 | never blocks: each reading is buffered, or waits in the overflow in place of its series' last, and every replacement is counted |
| ReadingQueue.ReadingConsumer.TakeOverflow | sensor_hub/automation/readings.go:89-99 | the latest reading of each waiting series, in the order the series began to wait, and the overflow empty |
| ReadingQueue.BatchIsSplit | sensor_hub/automation/readings.go:47-70 | of a batch the readings there is room for are buffered in turn, none while any wait; from the first that does not fit all wait, of each series the last, in the order the series came up, and every other is counted as replaced |
| ReadingHandOff.NothingLost | sensor_hub/automation/readings.go:47-99 | every reading consumed is in exactly one place: observed, in hand, buffered, waiting, or counted as dropped; the last of a series is never dropped |
| ReadingHandOff.NoneForgotten | sensor_hub/automation/readings.go:72-87 | the worker never waits on an empty buffer while readings wait in the overflow |
| ReadingHandOff.OrderedExactlyWhileApart | sensor_hub/automation/readings.go:24-26 | what the worker observes are readings consumed, each of its own series, and a series' readings reach it in order exactly as long as the overflow is only taken while it shares no series with the buffer |
| ReadingHandOff.FewReadingsStayApart | sensor_hub/automation/readings.go:80-81 | that is so whenever at most the buffer's size of readings arrive between finding it empty and taking the overflow |
| ReadingHandOff.OvertakingHappens | sensor_hub/automation/readings.go:80-81 | with one reading more a newer one is observed before an older one of its series |
| CommandTracking.CommandHistory.MarkAcknowledged | sensor_hub/db/sensor_command_history_repository.go:82-91 | takes effect, and says so, only on a command still sent |
| CommandTracking.CommandHistory.MarkTimedOut | sensor_hub/db/sensor_command_history_repository.go:93-102 | takes effect, and says so, only on a command still sent |
| CommandTracking.CommandHistory.MarkFailed | sensor_hub/db/sensor_command_history_repository.go:104-113 | takes effect, and says so, only on a command still sent |
| CommandTracking.CommandTracker.Track | sensor_hub/actuation/command_tracker.go:86-121 | the command is tracked with one new channel, and has a timer unless it has expired, when its caller times it out next |
| CommandTracking.CommandTracker.Await | sensor_hub/actuation/command_tracker.go:188-197 | another channel for a tracked command, beside those it has; none for any other |
| CommandTracking.CommandTracker.MatchingCommand | sensor_hub/actuation/command_tracker.go:210-227 | the longest-sent tracked command for the sensor and property, the lowest ID of those sent together, none only if there is none |
| CommandTracking.CommandTracker.Settle | sensor_hub/actuation/command_tracker.go:229-241 | every channel of the command receives the status once, no other receives anything, and no send can block |
| CommandLifecycles.CommandLifecycle.Consume | sensor_hub/actuation/command_tracker.go:123-157 | each usable reading of a batch, in turn, acknowledges the oldest command still tracked for its property, if there is one, and is marked as that command's run's doing; no other status changes, the tracked commands stay exactly those still sent, and every channel waiting holds the status of its own command's row, or nothing while that is only sent |
| CommandLifecycles.CommandLifecycle.RecoverPending | sensor_hub/actuation/command_tracker.go:175-186 | at startup the commands still sent are tracked, those whose time is up time out at once, and no other status changes |
| CommandLifecycles.CommandLifecycle.TrackPending | sensor_hub/actuation/command_tracker.go:86-121 | a command whose time is up times out as soon as it is tracked, and its channel says so; any other stays tracked with its channel empty |
| CommandLifecycles.CommandLifecycle.HandleTimeout | sensor_hub/actuation/command_tracker.go:274-293 | times out a command still tracked and tells its channels so, and does nothing to any other |
| CommandLifecycles.CommandLifecycle.MarkFailed | sensor_hub/actuation/command_tracker.go:159-173 | fails a command still sent and tells its channels so, and does nothing to any other |
| CommandRace.OneWinner | sensor_hub/actuation/command_tracker.go:123-173 | in every interleaving of acknowledgements, timeouts, failures and restarts one attempt wins a command |
| CommandRace.FirstStatusWins | sensor_hub/db/sensor_command_history_repository.go:82-113 | a final status never changes |
| CommandRace.StatusesHaveCauses | sensor_hub/actuation/command_tracker.go:123-173 | an acknowledged command was matched by a reading, a timed-out one had its timer fire, and a failed one was given up by its sender |
| CommandRace.EachHasItsEffect | sensor_hub/actuation/command_tracker.go:86-293 | the first to try settles a command with its own status, and whoever tracks or awaits one that is tracked waits on it |
| CommandRace.OutcomeDeliveredOnce | sensor_hub/actuation/command_tracker.go:229-241 | a channel receives nothing until its command is settled, and then exactly the winning status, once |
| CommandRace.SettlingNeverBlocks | sensor_hub/actuation/command_tracker.go:237-239 | every channel waiting on a command is empty when it is settled |
| CommandRace.TrackedAreSent | sensor_hub/actuation/command_tracker.go:274-293 | with no command between its row and the tracker, the tracked commands are exactly those still sent |
| CommandRace.StepKeeps | sensor_hub/actuation/command_tracker.go:86-293 | every step of every goroutine keeps rows, registry and channels in agreement |
| IncreaseQuery.TotalIgnoresBuckets | sensor_hub/db/readings_repository.go:370-403 | whatever the buckets, they add up to the steps of the readings in the range, each from the reading before it in the whole table |
| IncreaseQuery.BucketShowsItsSteps | sensor_hub/db/readings_repository.go:370-403 | each bucket shows exactly the steps of the readings in it |
| IncreaseQuery.RowsAddTheirRise | sensor_hub/db/readings_repository.go:388-395 | a reading adds what the counter rose by since the one before, its whole value after a reset, and nothing where either has no number |
| IncreaseQuery.AdjacentRangesAdd | sensor_hub/db/readings_repository.go:376-386 | totals over adjacent ranges add up, at whatever intervals they are shown |
| IncreaseQuery.IncreaseTelescopes | sensor_hub/db/readings_repository.go:388-395 | the total is the last reading less the seed, and what the counter showed before each reset is added to it |
| IncreaseQuery.NeverReset | sensor_hub/db/readings_repository.go:394-395 | without a reset that addition is nothing, so the total is the last reading less the seed |
| IncreaseQuery.BucketsAreEven | sensor_hub/db/readings_repository.go:428-445 | every bucket starts at the last multiple of its width |
| IncreaseQuery.CoarseFollowsFine | sensor_hub/db/readings_repository.go:428-445 | readings in one fine bucket are in one coarse bucket |
| HealthHistory.SensorRepository.DeleteHealthHistoryOlderThan | sensor_hub/db/sensor_repository.go:127-179 | one checkpoint for each sensor with older rows, the current status for each left without a row, and nothing older than the cutoff |
| HealthHistory.CleanupPreservesStatus | sensor_hub/db/sensor_repository.go:127-179 | for a sensor with any history every status from the cutoff on is as before, if and only if its rows at the cutoff, where it has older ones too, end as those do |
| HealthHistory.TieBreaksStatus | sensor_hub/db/sensor_repository.go:135-150 | a sensor that turned bad in the second of the cutoff is shown good after the cleanup |
| HealthHistory.BackfillSpeaks | sensor_hub/db/sensor_repository.go:152-166 | a sensor nothing was recorded of is shown with its current status after the cleanup |
| HealthHistory.CleanupsPreserveStatus | sensor_hub/db/sensor_repository.go:127-179 | for every sensor, however recording and cleaning up alternate, with cutoffs that do not go back, the table says what all rows ever recorded say of every time since the latest cutoff, if and only if no cleanup met a tie it could break, nor gave the sensor its current status while nothing was recorded of it |
| HealthHistory.WindowShowsStatus | sensor_hub/db/sensor_repository.go:181-202 | those rows tell the sensor's status at every time since, as the whole table does |
| HealthHistory.SensorRepository.GetSensorHealthHistoryById | sensor_hub/db/sensor_repository.go:181-202 | the sensor's rows since a time and the last one before it, latest first |
| HealthHistory.SensorRepository.UpdateSensorHealthById | sensor_hub/db/sensor_repository.go:456-489 | a change of status is recorded as one new row, unless the sensor has none yet or it is no change |

## Left out

- HTTP, websockets, e-mail, MQTT, generated code, logging, tracing, metrics and notifications: they do not change the state modelled.
- Real timers, sleeping and the supervision of goroutines: what remains of them is that due entries are popped with some reading of the clock.
- SQL text, drivers and scanning: tables are maps from ID to row, and a statement's rows are visited in any order where the statement leaves it open.
- Store errors other than the hub's death, and deleting commands still pending.
- Shutting down in the middle of a step is the death of the hub; an executor does not die alone.
- The check of sensor, capability and value before a command is sent: it is one of the ways sending can fail.
- Edges inside the engine are values in its map, and its scheduler is the map that the heap is proved to refine, so aliasing between the engine and those objects is not modelled; nor are the heap and the engine's lock held apart.
- The interval phase of an automation that breaks and is mended: it is re-armed from what the engine has in memory, which may be nothing.
- Executors.Executor.Execute: starts from the run's row as it stands; a copy gone stale before it starts, and other executors beside it, are part of the run protocol.
- Executors.Executor.ExecuteStep: waiting for a command that a cancelled run left in flight is only whether the executor is stopped meanwhile; it delays the step and changes no table.
- Executors.Executor.SettleInterrupted: an error while following a recorded command is one of the outcomes it may have.
- EngineEdges.EngineRefinesEdges: is about one life of the hub. Edges and holds are not saved, so every reading trigger starts anew with the next.
- CauseChains.OnlyExecutedRunsLead: that only executed runs send commands is built into the chains' machine; the run protocol proves it.
- DuePhases.PhaseIsKept: speaks of triggers whose own automation is not edited, broken or mended meanwhile.
- Engines.Engine.Load: starts no goroutines; the launch of active runs at startup is part of the run protocol, and the runs to catch up with and the missed records are results of the method.
- CommandTracking.CommandTracker.Track: cancelling a timer is forgetting it; that a timer already fired may still time the command out is part of the race.
- Edges.Edge.Observe: text is matched without regard to case for ASCII letters only.
- Thresholds and margins are real numbers, and sums are not rounded.
- IncreaseQuery.TotalIgnoresBuckets: is about one series, the query's partition; names, units and the filter by series are left out.
- Durations beyond what 64 bits of nanoseconds hold.
- The reading pipeline, the command service, name and ID caches, alert rules, configuration, permissions and users.
