# Deployment, query policy and signing: a verified model

This project models the parts of the developer-tools server that hold state or
decide what may pass, and proves what they promise.

* **Deployment manager** (`Manager`, `ManagerSystem`, `ManagerRuns`, `ManagerRecords`). The class
  `Manager.JobManager` has the manager's fields and critical sections. Each method
  is proved equal to a function of the state. `ManagerSystem` runs those functions
  as a transition system with one goroutine per accepted start, one step per
  critical section, context change or wait-group operation, and a history variable
  with every accepted start. `ManagerSystem.Inv` is an inductive invariant over
  every interleaving, and `ManagerRuns` draws the consequences for whole runs.
  `ManagerRecords` says field by field what the record of a task holds in every state
  of every run.
* **Task log** (`LogWindow`). The incremental trimming keeps the longest suffix of
  the full history that fits both bounds.
* **Deployment service** (`Selectors`, `OutputCapture`, `DeploymentService`).
  Request validation, the chunk-by-chunk search for the phase marker, the event
  trace and the verdict.
* **Deployment script** (`DeployArguments`, `Supervision`, `RestartLog`,
  `OutputTable`, `CommandLine`, `ReleaseTarget`, `ReleaseScript`, `ReleaseConditions`,
  `BackupRetention`). `CommandLine` is the grammar of the command line. `Supervision` says call by
  call what restarting does under given answers of supervisorctl. The class
  `ReleaseScript.Host` holds the target's directories, the revision file, the
  Supervisor configurations, the script's globals and what it has printed. Every
  command may fail and may then leave any contents at its destination. `EndToEnd`
  composes the script with the service and states what each verdict says about the
  target. `RunReport` and `ShortErrors` say what is reported about a failed run, and `DeploymentLog`
  that the process results are read from the whole output of a deployment as from
  its restart log alone.
* **SQL checks** (`SqlScanners`, `SqlErrors`, `SqlIdentifiers`, `SqlVerdict`, `SqlPolicy`). Two scanners that
  were written independently are proved to agree exactly when no backtick stands
  outside a literal, each verdict is proved to be the first check that fails, and the
  verdict is proved not to look into literals.
* **Redis policy and inspector** (`RedisPolicy`, `RedisCommands`, `RedisInspector`). The validators accept exactly a
  grammar, and the inspector only issues commands in it.
* **Legacy signing** (`LegacySigning`, `SignedText`). Timestamps under any clock, signatures that
  verify, and no two calls that sign the same text.

`Text` holds the string functions of the Go library that these modules share, and
`TextLaws` what they mean.
`dafny verify dfyconfig.toml` checks everything.

## What the code does that one might not expect

* `Close` can return while a task is compiling: `Start` calls `wg.Add` after it has
  released the lock. `ManagerRuns.DrainedUnlessStarting` gives the exact condition,
  `ManagerRuns.CloseMissesStartingTask` the run.
* Rollback restores everything that existed, but asset directories that only the
  new release has stay behind (`ReleaseScript.LeftoverAssets`, exact). The
  deployment guide (docs/deploy-server.md) says that the files are restored.
* A successful restart does not mean that any `supervisorctl restart` succeeded: a
  process passes without one exactly when all five calls fail and the status after
  the fifth is RUNNING (`Supervision.PassingWithoutRestart`, exact;
  `Supervision.RunWithoutRestart` is such a run).
* The short error of a failed deployment is the last line that the script printed
  before its exit trap if and only if the source had not been prepared and this line
  contains "error", "failed", "spawn" or "did not reach"
  (`EndToEnd.DeployOnHost`, for lines under 1024 bytes without white space at their
  ends, other than the trap's own line). Every line that `die` prints does. Once the
  source has been prepared the trap prints "failed revision" last, and
  `conciseDeployError` shows that line whatever went wrong. Before that, a command that ends with a line such as
  "fatal: no such ref" is not shown either.
* `validateRange` computes `stop - start + 1` in 64 bits, so it accepts the pair
  0 and 2^63-1, that is the whole list (`RedisPolicy.WrapOfLength`,
  `RedisInspector.WholeListIsAccepted`).
* The Go validation accepts selectors that make the script die: those of the other
  service, and dotted command names for Partystar
  (`DeployArguments.AcceptedButUnmappable`, exact). The other way round the script
  alone accepts `room.cmd.` (`CommandLine.SelectorsOfBothSides`, exact).
* A normalised statement and the stripped one are the same text if and only if no
  backtick stands outside a literal in single or double quotes
  (`SqlScanners.ScannersAgreeExactly`). A backtick inside such a literal makes no
  difference.
* After a statement has been accepted, the scope check sees the same text unless
  there is such a backtick, or a final semicolon followed by white space:
  `TrimSuffix` then leaves the semicolon (`SqlPolicy.ScopeSeesNormalizedText`,
  exact). Only direct calls of the client meet the second case, because the service
  trims a statement before both checks (`SqlPolicy.ScopeOfTrimmedStatement`).
  The scope check sees every accepted character where it stood if and only if the
  stripping scanner has no literal open in front of any of them or at the end
  (`SqlPolicy.ScopeSeesExactly`), and then every run of them in one piece
  (`SqlPolicy.ScopeSeesAcceptedText`). Literals closed inside each identifier in
  backticks are enough for that. An identifier that leaves one open can hide what
  follows it (`SqlIdentifiers.ClosedNamesAreHarmless`, exact for each identifier;
  `SqlPolicy.HiddenFromScope` is an accepted statement with a word that the scope
  check does not see).
* Two calls can never sign the same text if and only if callers reach no field in
  front of the timestamp or none behind it, where a caller reaches a field that the
  login query does not fix and that some signed endpoint lists as a query key. The
  configuration loader demands neither (`LegacySigning.ReplayFreeExactly`).
* The deployment guide says that the backups of the last successful deployments are
  kept. The script counts every `backup.` directory, those of failed deployments
  included. Take the deployments up to the last that succeeded: the last N successful
  backups are there if none of the last N of these failed or none before them
  succeeded, and only then if the last pruning removed all it should
  (`BackupRetention.SuccessfulBackupsAreKept`;
  `BackupRetention.FailuresEvictASuccess` is a run that loses one).

## Model

| member | source | states |
|---|---|---|
| Manager.JobManager.constructor | internal/testdeploy/manager.go:99-101 | a new manager is empty and its order lists the keys of its map |
| Manager.JobManager.Start | internal/testdeploy/manager.go:103-128 | rejects exactly the invalid requests and exactly those whose service has a running task, naming such a task; otherwise inserts the task as compiling, with every field of its first record, appends it to the order and prunes, and pruning leaves the new task; order and map stay in step |
| Manager.JobManager.PruneLocked | internal/testdeploy/manager.go:265-274 | the loop computes `Prune`, whose meaning the next three rows give |
| Manager.PruneRemovesPrefix | internal/testdeploy/manager.go:265-274 | pruning removes a prefix of the order, exactly the tasks it names, and nothing else |
| Manager.PruneStopsAtRunning | internal/testdeploy/manager.go:265-274 | everything it removes is terminal, and it stops above the limit only at a task that is still running |
| Manager.PruneKeepsIndexed | internal/testdeploy/manager.go:265-274 | the order stays free of duplicates and lists exactly the keys of the map |
| Manager.JobManager.RecordPhase | internal/testdeploy/manager.go:214-220 | status, stage and log line for a compiling or deploying notification |
| Manager.PhaseKeepsLogWindow | internal/testdeploy/manager.go:218-220 | a notification keeps the log the window of all lines ever logged |
| Manager.FinishKeepsLogWindow | internal/testdeploy/manager.go:236-247 | so does the end of a deployment, with the short error in front of the line about the outcome |
| Manager.JobManager.ObserveEvent | internal/testdeploy/manager.go:206-224 | the callback's whole effect: Slack entry, status, stage, log line, remembered final status; nothing for an unknown task |
| Manager.JobManager.FinishTask | internal/testdeploy/manager.go:232-250 | the final fields of a task for each of the four outcomes: status and stage, revision and process results of the output, duration, completion, short error and log |
| Manager.JobManager.FinishRun | internal/testdeploy/manager.go:226-252 | the last critical section: second look at the context, every final field of the record, log, cancel function cleared |
| Manager.FinishedTaskMeans | internal/testdeploy/manager.go:232-250 | the final record field by field: which stage goes with which outcome, what comes from the output, the error and the clock |
| Manager.JobManager.Cancel | internal/testdeploy/manager.go:190-202 | not found, already terminal, or cancelled; only a live context of a running task changes |
| Manager.JobManager.CloseAll | internal/testdeploy/manager.go:139-146 | cancels exactly the live contexts of running tasks |
| Manager.JobManager.Recent | internal/testdeploy/manager.go:173-188 | the default and the bounds of the limit, and the newest tasks first, each at its place |
| ManagerSystem.StepKeepsInv | internal/testdeploy/manager.go:103-253 | every step of every interleaving keeps the invariant: the order is a suffix of all accepted starts and has the keys of the map, each record fits its goroutine, services are exclusive, the wait group counts the goroutines that owe a Done |
| ManagerSystem.StartKeeps | internal/testdeploy/manager.go:118-129 | Start keeps it, pruning included |
| ManagerSystem.NotifyKeeps | internal/testdeploy/manager.go:206-224 | a notification keeps it: the record shows exactly the notifications sent so far |
| ManagerSystem.FinishKeeps | internal/testdeploy/manager.go:226-252 | the last critical section keeps it |
| ManagerSystem.FinalOk | internal/testdeploy/manager.go:237-250 | the two looks at the context fit together: the final status is canceled exactly if the context is, and otherwise what was reported |
| ManagerSystem.CancelKeeps | internal/testdeploy/manager.go:190-202 | Cancel keeps it |
| ManagerSystem.CancelAllKeeps | internal/testdeploy/manager.go:139-146 | Close's cancellation keeps it |
| ManagerSystem.CountedMove | internal/testdeploy/manager.go:131-135 | the counting step: how one goroutine's move changes the number that the wait group must show |
| ManagerSystem.RefuseNeverHappens | internal/testdeploy/service.go:233-235 | the validation that deploy repeats on the goroutine's request never rejects it |
| ManagerSystem.RunningIsUnfinished | internal/testdeploy/manager.go:190-202 | a record that is not terminal belongs to an unfinished goroutine and has a cancel function |
| ManagerSystem.PruneKeepsThreads | internal/testdeploy/manager.go:265-274 | pruning keeps goroutines, records and contexts together |
| ManagerRuns.RunKeepsInv | internal/testdeploy/manager.go:103-253 | the invariant holds in every state of every run |
| ManagerRuns.OneRunningTaskPerService | internal/testdeploy/manager.go:118-125 | two running tasks of one service are the same task |
| ManagerRuns.UnfinishedIsKept | internal/testdeploy/manager.go:265-274 | a task that is not terminal is never pruned, stays in the order and keeps its cancel function |
| ManagerRuns.DeadExits | internal/testdeploy/manager.go:190-230 | the "not found" exits of run and of its callback, and a call of a nil cancel function, cannot happen |
| ManagerRuns.RecentIsNewestStarts | internal/testdeploy/manager.go:173-188 | for limits 1 to 50 the bounded order gives the same newest starts as the full history of accepted starts |
| ManagerRuns.HistoryIsBounded | internal/testdeploy/manager.go:126-128 | after an accepted start there are at most 50 entries, or the oldest is still running |
| ManagerRuns.TraceMatchesRecord | internal/testdeploy/manager.go:206-251 | the notifications of a finished deployment are well formed, the Slack keys are exactly they, and the status is the last of them or canceled, the latter exactly if the context was cancelled |
| ManagerRuns.SlackKeysAreTheTrace | internal/testdeploy/manager.go:213 | at every moment the Slack keys are exactly the notifications sent so far |
| ManagerRuns.TerminalIsAbsorbing | internal/testdeploy/manager.go:190-253 | no step changes a terminal record, except that pruning removes it, and no step brings a pruned one back |
| ManagerRuns.StatusMovesForward | internal/testdeploy/manager.go:214-250 | status moves from compiling to deploying to terminal and never back |
| ManagerRuns.EndedContextSticks | internal/testdeploy/manager.go:110 | a context that was cancelled or expired stays so for the rest of the run |
| ManagerRuns.CancelIsDecisive | internal/testdeploy/manager.go:190-252 | when Cancel has answered true, the final status is canceled if and only if the deadline had not expired at the call, whatever deploy had reported by then |
| ManagerRuns.RefusedCancelIsFinal | internal/testdeploy/manager.go:196-198 | when Cancel has answered false, the record never changes again until it is pruned, and then it stays away |
| ManagerRuns.DrainedUnlessStarting | internal/testdeploy/manager.go:131-158 | with the wait group at zero, every task is terminal if and only if no Start is between its unlock and its wg.Add |
| ManagerRuns.CloseDrainsAll | internal/testdeploy/manager.go:139-158 | if no Start is in that gap when Close cancels and none is accepted before it returns, all tasks are terminal at its return, and those that were running with a live context are there and canceled |
| ManagerRuns.CloseMissesStartingTask | internal/testdeploy/manager.go:118-158 | the run in which Close returns while a task is compiling |
| ManagerRecords.StepKeepsRecords | internal/testdeploy/manager.go:103-253 | every step of every interleaving keeps every record faithful to the story of its task: the request, the last delivery of each notification, stage, log, and after the end what the runner returned and what the clock said |
| ManagerRecords.RecordsTellTheirStories | internal/testdeploy/manager.go:204-253 | so records tell their stories in every state of every run; the log is the window of the lines that the outcome demands |
| ManagerRecords.FinalRecord | internal/testdeploy/manager.go:232-250 | in every run, a terminal record has the stage of its status, revision and results of the output that the runner returned, its short error, the deliveries and the clock |
| ManagerRecords.NoteTells | internal/testdeploy/manager.go:213-220 | a notification: stage, delivery and log line |
| ManagerRecords.EndTells | internal/testdeploy/manager.go:232-250 | the end of a run: all final fields and the lines of the outcome |
| LogWindow.TakeBytes | internal/testdeploy/manager.go:351-356 | the longest prefix within a number of bytes |
| LogWindow.Truncate | internal/testdeploy/manager.go:351-356 | a text within the limit is kept, a longer one is cut to a proper prefix with an ellipsis behind it, at most the limit and three bytes |
| LogWindow.AppendTaskLog | internal/testdeploy/manager.go:329-341 | the loop computes `Append`, whose meaning the next rows give |
| LogWindow.StoredMeans | internal/testdeploy/manager.go:329-333 | one call stores the trimmed line, cut to 1024 bytes with an ellipsis when it is longer, and nothing for a blank one |
| LogWindow.WindowLimits | internal/testdeploy/manager.go:334-340 | a window has at most 40 lines and 8192 bytes, and one line more in front would be too much |
| LogWindow.AppendKeepsWindow | internal/testdeploy/manager.go:329-341 | one call keeps the log the longest suffix, of everything stored so far, with at most 40 lines and 8192 bytes |
| LogWindow.ReplayKeepsWindow | internal/testdeploy/manager.go:329-341 | so does any sequence of calls, from any log that is such a suffix |
| LogWindow.ReplayIsWindow | internal/testdeploy/manager.go:329-341 | so does any sequence of calls from a first log that fits |
| LogWindow.TrimmingOnceIsEnough | internal/testdeploy/manager.go:329-341 | trimming after every call gives what trimming the whole history once gives |
| LogWindow.WindowIsUnique | internal/testdeploy/manager.go:329-341 | there is only one longest fitting suffix |
| Selectors.ValidateDeployment | internal/testdeploy/service.go:298-321 | accepts exactly the valid requests; which error comes first, exactly |
| OutputCapture.Tail | internal/testdeploy/service.go:119-122 | the last 65536 bytes, or everything when there are fewer |
| OutputCapture.ConcatOfSum | internal/testdeploy/service.go:146-155 | the stream is the writes one after the other |
| OutputCapture.ConcatOfOne | internal/testdeploy/service.go:146-155 | a single write is the stream |
| OutputCapture.Capture.Write | internal/testdeploy/service.go:146-155 | the buffer grows by the write, and the callback runs when the marker is complete and has not run before |
| OutputCapture.CaptureAll | internal/testdeploy/service.go:106-155 | for every chunking: the callback runs once if and only if the whole stream contains the marker, at the write that completes it, and the returned output does not depend on the chunking |
| OutputCapture.CompletesOnce | internal/testdeploy/service.go:146-155 | only one write can complete the marker |
| DeploymentService.Deploy | internal/testdeploy/service.go:232-261 | the trace, verdict, error and output of a deployment as a function of what the script wrote, how it ended and what the context says |
| DeployArguments.BuildArguments | internal/testdeploy/service.go:277-290 | the argument list is built as `BuildArgs` says, whose meaning `ArgumentRoundTrip` gives |
| DeployArguments.ParseArgs | scripts/deploy-server.sh:92-153 | the shifting loop computes `Parse`, every exit and its code included |
| DeployArguments.ArgumentRoundTrip | internal/testdeploy/service.go:277-321 | for every accepted request the script recovers action, service, processes in order and the number of backups, zero meaning three |
| DeployArguments.ActionIsKnown | scripts/deploy-server.sh:98-115 | the script never runs with an unknown action |
| CommandLine.CommandLineExactly | scripts/deploy-server.sh:92-153 | which command lines are accepted, and as what: an action and a service or a service alone, which means deploying it, then options and selectors in any order, the last number of backups counting and 3 being the default |
| CommandLine.ItemsAreRead | scripts/deploy-server.sh:124-148 | the loop reads any written options and selectors, whatever follows them |
| CommandLine.ReadIsWritten | scripts/deploy-server.sh:124-148 | and accepts nothing else |
| CommandLine.FirstBadWord | scripts/deploy-server.sh:124-152 | what is refused and with which words: the first word that cannot be read decides |
| CommandLine.NoHead | scripts/deploy-server.sh:93-121 | the outcome of command lines without a service |
| CommandLine.SkipTestsIsPassedOn | internal/testdeploy/service.go:283-285 | the flag for skipping tests is on the command line exactly if the request has it |
| CommandLine.PartystarMaps | scripts/deploy-server.sh:197-215 | the selectors that are mapped for Partystar, exactly |
| CommandLine.RoomMaps | scripts/deploy-server.sh:216-230 | the selectors that are mapped for Room, exactly |
| CommandLine.SelectorsOfBothSides | internal/testdeploy/service.go:312-316 | the Go validation accepts exactly what the script maps for one of its services, `all`, and not `room.cmd.` |
| CommandLine.SelectorProblems | scripts/deploy-server.sh:203-228 | what the script says about a selector that it cannot map |
| CommandLine.OrderMeans | scripts/deploy-server.sh:248-261 | the order of the processes: a prefix comes first, and otherwise the first difference decides |
| DeployArguments.MappedIntoNamespace | scripts/deploy-server.sh:197-230 | a mapped selector lies in the service's own process namespace |
| DeployArguments.MapAddsPrefix | scripts/deploy-server.sh:197-230 | a full process name is mapped to itself, any other selector to itself behind the service's prefix |
| DeployArguments.MapIsIdempotent | scripts/deploy-server.sh:197-230 | mapping a mapped name changes nothing |
| DeployArguments.NamespacesAreDisjoint | scripts/deploy-server.sh:182-195 | no process belongs to both services |
| DeployArguments.AcceptedButUnmappable | internal/testdeploy/service.go:312-316 | which selectors pass the Go validation and make the script die, exactly |
| DeployArguments.Registered | scripts/deploy-server.sh:182-195 | exactly the reported names of the service's namespace |
| DeployArguments.Deduplicate | scripts/deploy-server.sh:248-261 | strictly sorted, with exactly the lines that are not empty |
| DeployArguments.ResolveProcesses | scripts/deploy-server.sh:232-262 | dies when a selector cannot be mapped or nothing is left, and otherwise gives a sorted list without duplicates of exactly the wanted processes |
| DeployArguments.SortedListIsUnique | scripts/deploy-server.sh:248-261 | such a list is determined by its elements |
| DeployArguments.WantedInNamespace | scripts/deploy-server.sh:232-262 | everything resolved belongs to the service |
| RestartLog.ParseDeploymentOutput | internal/testdeploy/manager.go:284-315 | the passes over the output compute `ParsedRevision` and `ParseOutput`, whose meaning the reporting lemmas and `RestartLogRoundTrip` give |
| RestartLog.RestartLineRoundTrip | scripts/deploy-server.sh:453 | a printed restart line is read back as its process and attempt, and never as a RUNNING line |
| RestartLog.ReadIsRestartLine | internal/testdeploy/manager.go:25 | only such a line, attempts 1 to 5, is read as one |
| RestartLog.RunningLineIsRead | internal/testdeploy/manager.go:26 | every RUNNING line, with any white space and any digits, is read as its process and number |
| RestartLog.StatusLineIsRead | internal/testdeploy/manager.go:26 | a RUNNING line with its number in decimal gives that number |
| RestartLog.ReadIsRunningLine | internal/testdeploy/manager.go:26 | and only such a line is read |
| RestartLog.OtherStateIsNotRead | internal/testdeploy/manager.go:26 | a status whose second word is not RUNNING is not read |
| RestartLog.RunningLineIsRunning | scripts/deploy-server.sh:458-461 | with blanks around RUNNING the script takes the line as running, too |
| RestartLog.RevisionLines | internal/testdeploy/manager.go:24 | a revision is read from exactly the three revision lines |
| OutputTable.TableMeans | internal/testdeploy/manager.go:289-309 | the table after any matches: each process once, in the order of first mention, with its last attempt and its last number |
| OutputTable.RowsOfOutput | internal/testdeploy/manager.go:284-315 | the rows of any output, in terms of the lines it matches |
| OutputTable.RevisionOfLines | internal/testdeploy/manager.go:285-288 | the revision of any output is that of its last revision line, or nothing |
| Supervision.HealthMeaning | scripts/deploy-server.sh:455-460 | 1 to 5 status calls, ended by the first RUNNING one |
| Supervision.RunningMeans | scripts/deploy-server.sh:458 | which statuses count as running, exactly |
| Supervision.TryMeans | scripts/deploy-server.sh:453-465 | an attempt makes one status call after a failed restart and up to five after a successful one, and works exactly if the restart did and one of the five says RUNNING |
| Supervision.PassesExactly | scripts/deploy-server.sh:470-472 | a run passes exactly if it reached every process and left the last one RUNNING |
| Supervision.VisitMeaning | scripts/deploy-server.sh:451-469 | every attempt but the last fails; the last one works or is the fifth; which status and poll count the process is left with |
| Supervision.VisitsAt | scripts/deploy-server.sh:446-473 | each process starts with the call numbers at which the one before ended |
| Supervision.VisitsEnd | scripts/deploy-server.sh:470-472 | only the last visited process may be left other than RUNNING, and this is the one reason to stop early |
| Supervision.PassingWithoutRestart | scripts/deploy-server.sh:454-471 | a process passes without a successful restart exactly when all its calls fail and the status after the last is RUNNING |
| Supervision.RunWithoutRestart | scripts/deploy-server.sh:446-473 | for any processes, a run that passes although every restart call fails, five for each |
| RestartLog.PollHealth | scripts/deploy-server.sh:455-460 | the health loop computes `Health`, whose meaning `HealthMeaning` gives |
| RestartLog.Attempt | scripts/deploy-server.sh:453-465 | one attempt computes `Try` and ends the loop exactly if the restart call succeeded and the last status is RUNNING |
| RestartLog.RestartProcess | scripts/deploy-server.sh:451-469 | the restart loop computes the visit that `VisitMeaning` describes, and prints exactly one line for each call |
| RestartLog.RestartAndVerify | scripts/deploy-server.sh:446-473 | the visits made are those of the specification; it succeeds exactly if every process is left RUNNING; the log shows exactly the calls |
| RestartLog.RestartLogRoundTrip | internal/testdeploy/manager.go:284-315 | reading the log back gives one row for each process that was reached, in order, with the real number of restart calls and the pid of a final RUNNING line |
| RestartLog.RestartProcesses | internal/testdeploy/service.go:219-226 | run and parser together: one row for each visit that was made, with the number of its restart calls, running exactly if its last status is a RUNNING line, and then with that line's number |
| RestartLog.RestartRowsMean | internal/testdeploy/manager.go:284-315 | what those rows say, without naming the parser |
| RestartLog.RowsAreRead | internal/testdeploy/manager.go:284-315 | any output that reads as the log of the visits gives exactly their rows |
| DeploymentLog.LogInOutput | scripts/deploy-server.sh:544-593 | a restart log among lines that no pattern reads is still read as that log |
| DeploymentLog.SelectedAreNames | scripts/deploy-server.sh:232-262 | the selected processes are distinct names without blanks, as the patterns need them |
| DeploymentLog.HeadIsSilent | scripts/deploy-server.sh:564-579 | no pattern reads what a deployment prints in front of its restart log |
| DeploymentLog.TrapIsSilent | scripts/deploy-server.sh:517-530 | nor what the exit trap prints |
| DeploymentLog.RowsOfDeployment | internal/testdeploy/manager.go:284-315 | the whole output of a deployment that got to the restarts, committed or rolled back, gives exactly the rows of the visits that were made |
| RestartLog.SplitUnlines | internal/testdeploy/manager.go:284-315 | printed lines are found again as lines |
| ReleaseTarget.AssetsAreMerged | scripts/deploy-server.sh:412-416 | what the asset loop leaves in each directory |
| ReleaseTarget.ArtifactsAreInstalled | scripts/deploy-server.sh:396-411 | after the artifact loop every artifact is the built one |
| ReleaseTarget.OtherFilesAreKept | scripts/deploy-server.sh:396-411 | the artifact loop leaves every other file of bin but its temporary files |
| ReleaseTarget.ReleaseByFile | scripts/deploy-server.sh:404-417 | a release file by file: built artifacts, and every other file of bin as it was |
| ReleaseTarget.ReleaseByDirectory | scripts/deploy-server.sh:412-416 | a release directory by directory: built assets merged, everything else untouched |
| ReleaseTarget.CompleteExactly | scripts/deploy-server.sh:76-83 | a build is complete exactly if its bin holds http, rpc and cmd for Partystar, or room_http, room_rpc and room_cmd for Room |
| ReleaseTarget.FilesOfRelease | scripts/deploy-server.sh:408-411 | after a release exactly those files are the built ones |
| ReleaseTarget.OtherFilesOfRelease | scripts/deploy-server.sh:396-411 | no other name in bin changes but temporary ones |
| ReleaseTarget.AssetsOfRelease | scripts/deploy-server.sh:412-416 | built config, i18n, public and template join those of the target, and no other directory changes |
| ReleaseTarget.BackupHolds | scripts/deploy-server.sh:384-394 | a backup holds bin, config, i18n, public, template and the revision, as far as they exist, and nothing else |
| ReleaseConditions.RegistrableExactly | scripts/deploy-server.sh:299-335 | of a service's processes, the script can register all but go.ps_http and go.ps_rpc, given a configuration and none installed |
| ReleaseConditions.FitsExactly | scripts/deploy-server.sh:404-444 | what target and build must hold for a deployment that no command stops, by name |
| ReleaseScript.Host.PrepareBackup | scripts/deploy-server.sh:384-394 | a successful backup holds every saved directory that exists and the revision if there is one |
| ReleaseScript.Host.InstallFile | scripts/deploy-server.sh:396-402 | success replaces exactly one file, and failure touches only the bin directory |
| ReleaseScript.Host.InstallRelease | scripts/deploy-server.sh:404-423 | success installs the whole release, the service's three artifacts by name; a failure at any command touches only bin, assets and revision |
| ReleaseScript.Host.RenderConfig | scripts/deploy-server.sh:299-335 | a configuration is only prepared when none of that name is installed |
| ReleaseScript.Host.RegisterNewProcesses | scripts/deploy-server.sh:425-444 | existing configurations are kept, and every added one is on the list for rollback; success registers exactly the unknown processes |
| ReleaseScript.Host.Rollback | scripts/deploy-server.sh:483-505 | nothing unless deployed with a backup; otherwise saved directories, revision and configurations as the backup and the list say |
| ReleaseScript.RollbackRestores | scripts/deploy-server.sh:483-505 | rollback of any reversible state restores all that existed; only new asset directories stay |
| ReleaseScript.Host.InstallAndRegister | scripts/deploy-server.sh:580-581 | at whatever command it stops, only what rollback can undo has changed; it succeeds only if the release fits the target, and always then when no command fails |
| ReleaseScript.Host.RestartAndCommit | scripts/deploy-server.sh:582-587 | commits exactly if every process was left RUNNING; a failure after that keeps the commit; it prints the log of the visits, and after a commit the revision and the removed backups |
| ReleaseScript.Host.Steps | scripts/deploy-server.sh:579-587 | at whatever command the transaction stops, the target is untouched, reversible or committed; once restarting is reached it commits exactly if every process is left RUNNING, and what it printed is known |
| ReleaseScript.Host.Transaction | scripts/deploy-server.sh:579-587 | the same for a deploy request and its selected processes |
| ReleaseScript.HealthIsDecided | scripts/deploy-server.sh:232-262 | the selection is unique, so the target is healthy or unhealthy by what restarting it does |
| ReleaseScript.NotBothHealthyAndUnhealthy | scripts/deploy-server.sh:446-473 | healthy and unhealthy exclude each other |
| ReleaseScript.Host.Configure | scripts/deploy-server.sh:544-562 | what the checks before the action die of, or exactly the selected processes |
| ReleaseScript.Host.PrepareAndBuild | scripts/deploy-server.sh:574-577 | lock, source and build: how far they get and what is printed last |
| ReleaseScript.Host.Preliminaries | scripts/deploy-server.sh:544-577 | the transaction is reached exactly by an admissible deploy request, with the selected processes sorted and distinct, and nothing of the target has changed; a deploy request that does not get to its source ends with a line of die; every other request has its exit code and its output |
| ReleaseScript.Host.Check | scripts/deploy-server.sh:544-562 | parsing and checks: what ends there, with its exit code and its words, or the request with its processes |
| ReleaseScript.Host.Act | scripts/deploy-server.sh:558-577 | what the actions behind the checks do: status, restart, plan, and a deployment up to its build |
| ReleaseScript.Host.RestartOnly | scripts/deploy-server.sh:563-568 | the restart action makes and logs exactly the visits to the selected processes, and its exit code says whether they pass |
| ReleaseScript.Host.Run | scripts/deploy-server.sh:544-588 | main without the trap: how far it got, its exit code, and what that says about the target |
| ReleaseScript.Host.Cleanup | scripts/deploy-server.sh:517-530 | a reversible state is restored, and any other is left alone; it prints that it restores if it does, and then the failed revision if there is one |
| ReleaseScript.Host.Execute | scripts/deploy-server.sh:544-593 | atomicity at every failure point: not committed means restored, committed means the complete release with healthy processes; without failing commands an admissible request with a fitting release commits if and only if its processes are healthy; a commit leaves the service's three artifacts as built; any other request has the exit code and the output of its action; after a complete installation the target is exactly as before if and only if the build brought no new asset directory; the output is that of main followed by that of the trap, and for a deployment that got to the restarts it is known line by line |
| ReleaseScript.LeftoverAssets | scripts/deploy-server.sh:404-505 | what stays after a complete installation was rolled back, exactly |
| ReleaseScript.CommitIsRelease | scripts/deploy-server.sh:579-586 | a commit leaves the built release and the configurations of exactly the new selected processes |
| EndToEnd.RunScript | internal/testdeploy/service.go:106-133 | the script as the runner sees it: its writes are what the host printed, that is the output of main and then of the exit trap; how output and error relate to what happened on the host; the revision and the rows of the visits are read back |
| EndToEnd.DeployOnHost | internal/testdeploy/service.go:232-254 | `compile_failed` means the target is untouched; `failed` means restored, or committed with the new release in place; `succeeded` means the release is installed and its processes are healthy; an unhindered deployment that is not canceled succeeds if and only if its processes are healthy; output and error are made from what the host printed; after the source is there a failure reports its revision; the short error is the last line that the host printed before the exit trap if and only if the source was not there and the line is telling; a request that does not get to its source printed a line of die last, and one whose source fails what git printed; an uncut output in quiet surroundings that got to the restarts is reported as the rows of the visits |
| EndToEnd.ReportOfRun | internal/testdeploy/service.go:124-132 | what the printed lines of a run say, given its exit and how far it got: revision and short error |
| EndToEnd.RowsOfRun | internal/testdeploy/manager.go:290-315 | its rows, when the output is uncut and its surroundings are quiet |
| EndToEnd.LastLineReport | internal/testdeploy/manager.go:317-327 | without a prepared source, the last line of the output is the short error exactly when it is telling |
| EndToEnd.FailureReport | scripts/deploy-server.sh:522-525 | the output of a failed run, even cut to its end, gives the revision, and its short error is the revision line |
| EndToEnd.SuccessReport | scripts/deploy-server.sh:586-587 | the uncut output of a committed run gives its revision, whatever is pruned |
| RunReport.ConciseDeployError | internal/testdeploy/manager.go:317-327 | the backward loop computes `Concise`, whose meaning the next rows give |
| ShortErrors.ConciseExactly | internal/testdeploy/manager.go:317-327 | the short error of any error is its last line with one of the four words, or its first line if there is none, trimmed and cut to 1024 bytes |
| ShortErrors.FailureTextMeans | internal/testdeploy/service.go:124-135 | the error of a failed command is its cause and the trimmed output if there is any |
| RunReport.ConciseIsLastLine | internal/testdeploy/manager.go:317-327 | if the output ends with a telling line, that line is the short error |
| RunReport.LastLineIsShown | internal/testdeploy/manager.go:317-327 | a plain last line is the short error if and only if it is telling |
| RunReport.ConciseTells | internal/testdeploy/manager.go:317-327 | the short error of a failed command always comes from a telling line |
| RunReport.FatalTells | scripts/deploy-server.sh:60-63 | every line of die is telling |
| RunReport.ErrorIsRevisionLine | internal/testdeploy/manager.go:317-327 | whatever went wrong, the short error of a run that ended with its revision line is that line |
| RunReport.LastLineIsReported | internal/testdeploy/manager.go:285-288 | a revision in the last line is the one reported |
| RunReport.TailKeepsLastLine | internal/testdeploy/service.go:119-122 | cutting the output to its last bytes keeps its last line |
| RunReport.RevisionLineReads | internal/testdeploy/manager.go:24 | each of the script's three revision lines is read back as its revision |
| BackupRetention.ReleaseDirectory.List | scripts/deploy-server.sh:160-162 | the listing is complete and without duplicates, times descend, and equal times have paths in descending order |
| BackupRetention.ReleaseDirectory.PruneOldBackups | scripts/deploy-server.sh:155-170 | a backup is removed only if as many as are to be kept stay that are as new; the others go from the newest on, up to the first removal that fails |
| BackupRetention.PruningSparesTheNewest | scripts/deploy-server.sh:165-169 | pruning keeps the newest by time, and of the others the newer ones go first, as many as removals work |
| BackupRetention.ReleaseDirectory.RemoveExpired | scripts/deploy-server.sh:165-169 | the removing loop leaves what `Pruned` says |
| BackupRetention.ReleaseDirectory.Deployment | scripts/deploy-server.sh:577-588 | one deployment adds its backup and prunes after a commit |
| BackupRetention.ReleaseDirectory.Deployments | scripts/deploy-server.sh:577-588 | after any sequence of deployments the directory holds the backups that `Kept` numbers |
| BackupRetention.OrderIsUnique | scripts/deploy-server.sh:160-162 | newest first determines the listing |
| BackupRetention.KeptIsNewest | scripts/deploy-server.sh:577-588 | over any sequence of deployments, with prunings that may stop part-way, the newest backups are always there, and after a complete pruning nothing else |
| BackupRetention.SuccessfulBackupsAreKept | docs/deploy-server.md:49 | after any sequence of deployments, when the backups of the last successful ones are all there |
| BackupRetention.FailuresEvictASuccess | scripts/deploy-server.sh:155-170 | a run in which failed deployments evict the backup of a successful one |
| EndToEnd.LineIsInText | scripts/deploy-server.sh:578 | a printed line is found in the output, whatever surrounds it |
| TextLaws.TrimSpaceMeans | internal/testdb/validator.go:23 | trimming takes all white space from both ends and nothing else |
| TextLaws.AtoiMeans | internal/testredis/validator.go:62-66 | a decimal number with an optional sign is read as its value if it fits 64 bits |
| TextLaws.AtoiOnly | internal/testredis/validator.go:62-66 | and nothing but optionally signed digits is |
| TextLaws.CaseMeans | internal/testredis/validator.go:39 | changing case changes letters only, in ASCII |
| TextLaws.ContainsMeans | internal/testdeploy/service.go:149 | a text contains another if it is that with something around it |
| SqlScanners.NormalizeForValidation | internal/testdb/validator.go:70-123 | the index loop computes `Normalize`, errors included |
| SqlScanners.StripStringLiterals | internal/testdb/mysql_client.go:246-281 | the index loop computes `Strip`, errors included |
| SqlScanners.NormalizedIsClean | internal/testdb/validator.go:70-123 | a normalised text contains no quote, semicolon, hash, backslash or comment opener |
| SqlScanners.NormalizeIdempotent | internal/testdb/validator.go:70-123 | normalising it again changes nothing |
| SqlErrors.ErrorsExactly | internal/testdb/validator.go:70-123 | a scanner error is reported exactly if the statement is in order up to a point and offends there: a comment, a semicolon, an escape, or a literal that never ends |
| SqlScanners.ScannersAgree | internal/testdb/mysql_client.go:246-281 | when no backtick stands outside a literal, one scanner succeeds if and only if the other does and leaves a clean text, and the results are equal after collapsing white space |
| SqlScanners.ScannersAgreeExactly | internal/testdb/mysql_client.go:246-281 | for every statement that normalises, the two agree if and only if no backtick stands outside a literal |
| SqlScanners.BacktickSeparatesScanners | internal/testdb/mysql_client.go:246-281 | statements with backticks on which they differ, and one on which a backtick does not matter |
| SqlScanners.BodyIsSkipped | internal/testdb/validator.go:76-95 | a well-formed literal becomes blanks, whatever is in it |
| SqlVerdict.CheckText | internal/testdb/validator.go:42-58 | the verdict on a collapsed text is the first check that fails: characters, first word, forbidden, suspicious, missing limit |
| SqlVerdict.ValidateReadOnlySQL | internal/testdb/validator.go:22-59 | the verdict is the first check that fails, accepted if none does: empty, longer than 8192 bytes, null byte, a semicolon before the end, scanner error, characters, first word, forbidden, suspicious, SELECT or WITH without a limit |
| SqlVerdict.VerdictExactly | internal/testdb/validator.go:22-59 | the same as a law about the verdict |
| SqlVerdict.AcceptedExactly | internal/testdb/validator.go:22-59 | accepted are exactly the statements that no check refuses |
| SqlVerdict.PrefixMeans | internal/testdb/validator.go:61-68 | the prefix test on a normalised text asks for one of six first words |
| SqlPolicy.LiteralBodiesAreInterchangeable | internal/testdb/validator.go:70-123 | replacing the body of a literal leaves the normalised text, or the error, unchanged |
| SqlPolicy.VerdictIgnoresLiterals | internal/testdb/validator.go:22-59 | the verdict depends on a literal only through the checks on the raw text |
| SqlPolicy.ScopeSeesNormalizedText | internal/testdb/mysql_client.go:223-238 | for an accepted statement the scope check sees the text that was accepted if and only if no backtick stands outside a literal and no final semicolon is followed by white space |
| SqlPolicy.ScopeOfTrimmedStatement | internal/testdb/service.go:26-33 | for a trimmed statement, as the service passes it, they are the same if and only if no backtick stands outside a literal |
| SqlPolicy.ScopeSeesExactly | internal/testdb/mysql_client.go:223-238 | for an accepted statement, stripping succeeds and keeps every character of the normalised text where it stood if and only if it has no literal open in front of any of them or at the end; closed literals inside each identifier are enough |
| SqlPolicy.ScopeSeesAcceptedText | internal/testdb/mysql_client.go:219-238 | then every run of characters of an accepted text stands in the scope check's text in one piece |
| SqlPolicy.HiddenFromScope | internal/testdb/mysql_client.go:223-238 | an accepted statement with a word that the scope check does not see |
| SqlVerdict.AcceptedText | internal/testdb/validator.go:38-58 | what acceptance guarantees about the normalised text |
| SqlIdentifiers.OuterIsImage | internal/testdb/validator.go:70-123 | the first scanner's output in terms of what it does with each character |
| SqlIdentifiers.StripIsImage | internal/testdb/mysql_client.go:246-281 | the same for the second scanner |
| SqlIdentifiers.SeenOutside | internal/testdb/mysql_client.go:246-281 | what the first scanner copies, the second copies at the same place, when it finds literals closed inside each identifier in backticks |
| SqlIdentifiers.CopiedMeansClosed | internal/testdb/mysql_client.go:246-281 | the second scanner copies a character that is not a quote if and only if it has no literal open there |
| SqlIdentifiers.SeenExactlyInStep | internal/testdb/mysql_client.go:246-281 | the second scanner succeeds and copies all that the first one copies if and only if it has no literal open in front of any such character or at the end |
| SqlIdentifiers.RunsAreSeen | internal/testdb/mysql_client.go:246-281 | then a run that the first scanner copies stands in the second one's text in one piece, where it stood in the statement |
| SqlIdentifiers.ClosedNamesAreHarmless | internal/testdb/mysql_client.go:246-281 | an identifier hides nothing of any text behind it whose own identifiers are closed, if and only if the stripping scanner finds its literals closed |
| RedisPolicy.ValidateRange | internal/testredis/validator.go:58-71 | accepts exactly the range grammar |
| RedisPolicy.WrapOfLength | internal/testredis/validator.go:67-69 | the 64-bit length test means ordered bounds with at most 500 items, or the one pair that wraps around |
| RedisInspector.WholeListIsAccepted | internal/testredis/validator.go:58-71 | that range command is allowed, for every valid key |
| RedisPolicy.ValidateScan | internal/testredis/validator.go:73-106 | accepts exactly a cursor followed by MATCH and COUNT pairs with exactly one COUNT in 1 to 500 |
| RedisPolicy.ScanLoopIsGrammar | internal/testredis/validator.go:80-105 | the loop from any position accepts exactly what the rest of the grammar allows |
| RedisPolicy.ValidateReadOnlyCommand | internal/testredis/validator.go:27-56 | accepts exactly the allowed commands |
| RedisCommands.AllowedExactly | internal/testredis/validator.go:27-56 | which commands are allowed, by name, length and tokens |
| RedisCommands.ShapeExactly | internal/testredis/validator.go:15-56 | what each command name demands |
| RedisCommands.CountsMean | internal/testredis/validator.go:92-95 | a COUNT in decimal is 1 to 500 |
| RedisCommands.RangesMean | internal/testredis/validator.go:58-71 | a range in decimal has ordered bounds and at most 500 items, or is everything |
| RedisInspector.ValidateKey | internal/redisinspect/service.go:77-87 | accepts exactly the valid keys |
| RedisInspector.RangeCommand | internal/redisinspect/service.go:93-94 | the list command is allowed |
| RedisInspector.ScanCommand | internal/redisinspect/service.go:95-100 | the scan commands are allowed |
| RedisInspector.ValueCommandExactly | internal/redisinspect/service.go:89-104 | which types have a command, and which command reads each |
| RedisInspector.GeneratedCommandsAreAllowed | internal/redisinspect/service.go:89-104 | every command the inspector can build for a valid key and 1 to 500 items is allowed |
| RedisInspector.Inspect | internal/redisinspect/service.go:31-67 | which commands are issued, in which order and under which conditions, all of them allowed; the third one reads values of the reported type, 100 by default |
| LegacySigning.TimestampClosedForm | internal/testbot/service.go:222-229 | for any clock the n-th timestamp is the largest of n and of every reading plus the number of calls since |
| LegacySigning.TimestampsIncrease | internal/testbot/service.go:222-229 | timestamps increase strictly, whatever the clock does |
| LegacySigning.BuildPayload | internal/testbot/service.go:235-243 | the loop builds the signed text |
| SignedText.PayloadText | internal/testbot/service.go:235-243 | the signed text field by field: eight names in order, missing values empty, a missing format left out, and the suffix |
| LegacySigning.Signer.LegacySignedQuery | internal/testbot/service.go:211-233 | the whole query sent and the new last timestamp |
| LegacySigning.ValidateKeys | internal/testbot/service.go:292-303 | accepts exactly the queries whose keys the endpoint lists |
| LegacySigning.Signer.QueryFor | internal/testbot/service.go:93-95 | a query with a key that is not listed is refused, and an accepted one is signed exactly for the endpoints that want it |
| LegacySigning.Signer.SignAll | internal/testbot/service.go:211-233 | any number of calls: the queries sent are those of the timestamp specification |
| LegacySigning.SignatureVerifies | internal/testbot/service.go:232-246 | recomputing the signature from the sent query without `_sign` gives the value sent |
| LegacySigning.IdentityIsAuthoritative | internal/testbot/service.go:216-220 | configured values always win, and the caller's other values are sent |
| LegacySigning.PayloadShape | internal/testbot/service.go:235-243 | the timestamp stands between what belongs to the fields in front of it and behind it |
| LegacySigning.NoTwoCallsSignTheSameText | internal/testbot/service.go:208-233 | no two calls sign the same text when callers reach no field on one side of the timestamp |
| LegacySigning.Collision | internal/testbot/service.go:216-243 | a field on each side that the login query does not fix: two queries with one of them each sign the same text, for any two timestamps |
| LegacySigning.ReplayFreeExactly | internal/testbot/service.go:85-95 | no two calls that get through to signed endpoints can ever sign the same text if and only if callers reach no field in front of the timestamp, or none behind it |

## Left out

- Processes, signals and WaitDelay: the runner returns after all output has been written. A kill while rollback runs is not modelled.
- Slack, HTTP, MySQL, Redis and MCP clients, and tool registration: wrappers over libraries.
- Digests and random identifiers: the digest is any function, and deployment identifiers are assumed fresh.
- SqlVerdict.ValidateReadOnlySQL: the regular expressions for forbidden and suspicious text and for the limit clause, and the class of letters and digits, are arbitrary predicates.
- RestartLog.ParseDeploymentOutput: the patterns are matched line by line and the first run of characters without a blank is the process name, so matches that cross a line break, or in which a tab ends the name, are not captured.
- RestartLog.RestartAndVerify: the words of its waiting and failure lines are not stated, only that no pattern reads them; the statement about the log assumes that supervisorctl's own lines do not look like the script's restart lines and that a status line names the process it was asked about.
- RestartLog.RestartLogRoundTrip: for a log that was not cut to its last 65536 bytes.
- Manager.JobManager.FinishRun: the clock readings are given.
- Manager.JobManager.Snapshot: a copy of a value is the value; what cloneTask protects against is aliasing, which the model does not have.
- Manager.JobManager.Start: tasks are values in a map, not pointers, so aliasing between a record and its copies is not captured; the timer of the context is an Expire step.
- ManagerSystem.StepKeepsInv: Go's memory model and the WaitGroup's rule against concurrent Add and Wait are not modelled; the wait group is a number.
- LogWindow.Truncate: strings are sequences of characters; a cut inside a character is modelled as a cut before it, and invalid UTF-8 does not occur.
- OutputCapture.CaptureAll: a character stands for one byte, here and where `EndToEnd` cuts the output; limits on lines count UTF-8 bytes, so the two agree for ASCII output.
- ReleaseScript.Host.Rollback: its own commands are assumed to succeed, because the script ignores their failures, and neither they nor the after-copy hook touch the modelled state otherwise; restarts after rollback are not modelled.
- ReleaseScript.Host.Preliminaries: git, submodules, build, locks and the host check are given outcomes, and so is what they print; the usage text and progress lines that the other side does not read are abbreviated.
- ReleaseScript.Host.RenderConfig: finding and editing the repository's Supervisor configuration is a given function.
- ReleaseScript.Host.Steps: the pruning of old backups is one command that may fail; its effect is modelled in BackupRetention.
- BackupRetention.KeptIsNewest: later deployments have newer backups, and all keep the same number; the paths that ReleaseScript prints as removed are given, not taken from this model.
- BackupRetention.SuccessfulBackupsAreKept: when the last pruning stopped part-way, only that undisturbed backups are there is stated, because which older ones survive depends on where earlier prunings stopped.
- EndToEnd.DeployOnHost: nothing is said about the target when the deployment was canceled. The rows are those of an uncut output.
- DeploymentLog.RowsOfDeployment: assumes that git, build and supervisorctl print lines that do not look like a restart log, and that process names and paths of backups have no blanks or line breaks where the script prints them.
- ReleaseScript.Host.Transaction: what a failing command of the transaction prints is not modelled; what the others print is given.
- DeployArguments.ResolveProcesses: `sort` uses byte order.
- LegacySigning.Signer.LegacySignedQuery: timestamps do not overflow 64 bits; the mutex is not modelled.
- LegacySigning.ReplayFreeExactly: speaks of what is signed; buildURL refuses values over 2048 bytes only after that, so a long value is signed but not sent.
- RedisInspector.Inspect: the answers are given after decoding; decodeValue and the logging are left out.
- Get, Logs, Status, configuration loading, the list of body fields, redaction and the log bridge: each is one lookup, filter or substitution without state of its own.
