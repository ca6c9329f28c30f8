# A model of wardend, with proofs

wardend is a process supervisor. This project models the parts of it where the
behaviour of the whole is not visible in any one function, and proves what those
parts guarantee together.

**Dependencies.** Two unrelated algorithms look at the dependency lists. Validation
runs a recursive depth-first search with a visited set and a recursion stack
(`CycleCheck`). Start-up and shutdown run a queue-based topological sort over
in-degree and adjacency maps (`StartOrder`). Each is proved sound and complete
against the same definition of a cycle (`DependencyGraph`), for any list of
processes and any map iteration order. Then the two are connected (`Startup`): the
sort succeeds exactly on the lists the search accepts whose names are distinct and
whose dependencies are defined. `StartAll` follows the order to the set of started
processes, which is closed under transitive dependencies at every moment.

**Supervision.** One process record is shared by callers of start and stop, by a
monitor and a start-up tracker per child, and by goroutines that perform restarts.
`Supervisor` is the transition system of any number of processes with a common wait
group and context. `ProcessRecord` has the critical sections as methods that change
the record in place, and `SerialRecord` proves that in every execution the record is
what these methods leave when called one after another. `SupervisorSafety` proves what
holds in every execution: lock discipline, wait-group and restart conservation, restart
budgets, and one live child at a time until a first stop finishes.
`RestartBounds` limits restarts and children; `RestartLoops`, `StopAndRestart` and
`LiveChildren` say exactly what is not limited. `StartupPhase` says when a start-up counts as complete.
`Shutdown` proves that cancellation drains. `Observation` connects what `StartAll` sees
to the executions.

**Log files.** `LogRotation` has the logger, its in-place exchange sort and its
clean-up; `LogHistory` proves that what is on disk is the end of everything ever in the
log as long as rotations get fresh time stamps, and what a stamp in use costs.

**YAML.** `YamlConfig` proves that a configuration survives being written and read
back exactly when it is representable, and that every configuration read from YAML
is.

**Command line.** `CommandLine` has the flags that describe processes. Dependency
flags are aligned from the right; the model says exactly when they reach the
processes they were given for, and which names they can carry.

**Health.** `Health` proves that two separately coded summaries agree on every map
the checker can build, and says exactly when they agree on others.

## What the proofs bring out

- A name without a process entry never leaves the recursion stack of the
  depth-first search. On lists that validation has not screened, naming such a
  process twice is reported as a cycle (`Startup.FalseAlarm`). `CycleCheck.Rejects`
  is the exact condition.
- The sort in reverse mode, which no caller uses, can accept a cyclic list that
  validation has not screened (`Startup.ReverseSortFooled`). Once dependencies are
  defined it is exact (`Startup.ReverseSortExact`).
- The branch of a monitor for a process in the stopping state cannot be reached:
  a stop holds the lock until the state is stopped. A stop therefore looks like a
  crash to the monitor (`SerialRecord.StopLooksLikeCrash`), and a stopped process can
  be restarted automatically exactly when the configuration allows any automatic
  restart (`StopAndRestart.StopIsNotFinal`).
- Two children of one process can be alive at once exactly if a stop finishes and there
  are three calls of start from outside, or two and the configuration allows automatic
  restarts (`LiveChildren.WhenTwoChildrenLive`). `StartAll` makes one call, each restart by
  signal one stop and one call (`signals.go:27-31`). One stop suffices for any number of live
  children (`LiveChildren.OneStopAllowsManyChildren`). A child can outlive the wait for the goroutines,
  all monitors having waited for others, under the same condition as for two children
  (`LiveChildren.WhenChildrenOutliveTheWait`).
- Line 40 of wardend's own README says "wait for named process to start". Every dependency
  has indeed been started before its dependent (`StartAll.StartAll`), but the wait that looks
  at its state comes after the start of the dependent (`manager.go:118-125`). In any run,
  everything begun had its dependencies seen running beforehand exactly if nothing
  begun has dependencies (`StartAll.WaitComesTooLate`; `StartAll.DependentBegunFirst` is
  the least case).
- Line 96 of wardend's own README promises no infinite restart loops from broken
  configurations. A start-up timer belongs to no particular child, so the timer of
  one can complete the start-up of the next, which then restarts without using up a
  retry. Endless restarts are possible exactly if the policy restarts and the number of
  restarts is unlimited, which are the defaults; that every child exits before its own
  timer expires does not prevent them (`RestartLoops.EndlessRestarts`). With unlimited
  restarts the retries are a limit only while no start-up has been completed at all
  (`RestartBounds.BrokenProcessGivenUp`).
- The on-failure policy looks at how a process ended only after start-up is complete
  (`StartupPhase.OnFailureRule`).
- The comment at `main.go:250-252` says that a dependency flag belongs to the process
  that follows those it names. The code assigns flags by position alone, from the
  right: a process without dependencies after one with them takes its flag
  (`CommandLine.FlagsReachTheirProcesses`, `CommandLine.FlagGoesAstray`).
- Backup names have a resolution of one second. A rotation whose stamp is in use loses
  the file set aside under it. `LogHistory.RotationCollides` says exactly when the pieces left
  are still the last pieces of the history, `LogHistory.BytesCollide` exactly when the bytes
  left are still the end of the log; the two differ (`LogHistory.CrowdedCollision`).
- `StartRetries` of zero, which the command line accepts, does not survive a YAML
  round trip (`YamlConfig.RoundTrip`, `YamlConfig.ZeroRetriesLost`).

## Model

| member | source | states |
|---|---|---|
| CycleCheck.IndexProcesses | config.go:174-177 | the process map sends each name to its last entry |
| CycleCheck.EnterValid | config.go:183-185 | entering a name keeps the recursion stack equal to the current path, which stays a walk in the graph |
| CycleCheck.LeaveValid | config.go:202-203 | leaving a name whose dependencies are finished keeps finished names in an order with dependencies first |
| CycleCheck.VisitUndefinedValid | config.go:187-190 | a name without an entry is finished at once, stays on the stack, and is charged to the one entry that named it |
| CycleCheck.StackIsPath | config.go:179-203 | while only defined names have been met, the recursion stack is exactly the current path |
| CycleCheck.StackHit | config.go:197-199 | meeting a name on the stack means a cycle in the graph or an undefined name met before |
| CycleCheck.AllFinished | config.go:206-214 | when every name is finished there is no cycle and no undefined name occurs twice |
| CycleCheck.Detector.HasCycle | config.go:182-204 | a positive answer is justified; after a negative one the name is finished, the path is as before and nothing visited is lost |
| CycleCheck.Detector.SomeDependencyHasCycle | config.go:192-200 | the loop over the dependencies: all finished, or a justified positive answer |
| CycleCheck.ValidateDependencies | config.go:173-215 | for any list and any iteration order, rejects if and only if the graph of last entries has a cycle or an undefined name occurs twice; terminates |
| DependencyGraph.MaximalOrderIsStartable | manager.go:627-643 | a predecessors-first order that cannot be extended holds exactly the nodes not blocked by a cycle or an unknown name |
| StartOrder.BuildGraph | manager.go:600-618 | degrees count incoming edges and adjacency lists hold outgoing ones, repetitions included, in either mode |
| StartOrder.CollectReady | manager.go:620-625 | for any iteration order, the queue starts with exactly the names of degree zero, once each |
| StartOrder.StillPending | manager.go:633-634 | with repeated edges, the degree of a successor not yet reached is still positive |
| StartOrder.RoundMoves | manager.go:634-637 | lowering one degree and queueing at zero keeps degrees equal to pending edges and the queue equal to the ready names |
| StartOrder.RoundEnds | manager.go:628-639 | after a round the queue holds exactly the names all of whose predecessors are in the result |
| StartOrder.Relax | manager.go:633-638 | the inner loop performs all moves of a round |
| StartOrder.Drain | manager.go:627-639 | the result lists the orderable names once each, predecessors first |
| StartOrder.TopologicalSort | manager.go:599-646 | for any list, mode and iteration order, succeeds if and only if as many names can be ordered as there are entries, and then returns them in a topological order |
| Startup.StartOrderExists | manager.go:586-588 | for any list, a start order exists if and only if names are distinct, dependencies defined and the graph acyclic; it then covers every name |
| Startup.CheckAndSortAgree | config.go:173-215 | for any list, the sort succeeds if and only if the depth-first check passes, names are distinct and dependencies defined |
| Startup.ReverseSortExact | manager.go:610-613 | once dependencies are defined, the reverse sort succeeds iff names are distinct and the graph acyclic |
| Startup.VerdictsCoincide | manager.go:599-646 | on distinct, defined names: the check rejects iff the graph is cyclic iff the sort fails, in either direction |
| Startup.ReverseSortFooled | manager.go:610-613 | the reverse sort accepts a cyclic list with an undefined dependency |
| Startup.FalseAlarm | config.go:187-199 | one process naming an undefined dependency twice is rejected as cyclic, and is not |
| Startup.GetStartOrder | manager.go:586-588 | returns a permutation of the names with dependencies first whenever one exists, and fails otherwise |
| Startup.BackwardsIsReverseOrder | manager.go:592-595 | a start order read backwards is an order of the reversed graph |
| Startup.GetStopOrder | manager.go:590-597 | meets the specification of the reverse sort, dependents first, whenever a start order exists; otherwise it is empty |
| Startup.HasDependency | config.go:137-144 | finds a name if and only if some process has it |
| Startup.FirstUndefined | config.go:115-119 | finds the first undefined dependency, if there is one |
| Startup.Validate | config.go:93-135 | accepts exactly the valid configurations, and otherwise reports the first fault in the order of the checks |
| Startup.ValidatedConfigStarts | manager.go:110-114 | after successful validation both orders exist and cover every process |
| StartAll.Pass | manager.go:542-551 | one pass is positive iff each dependency, read by itself, was defined and running |
| StartAll.WaitForDependencies | manager.go:520-554 | succeeds iff some tick before the timeout saw all dependencies running, or there are none |
| StartAll.StartInOrder | manager.go:118-126 | starts the order up to the first failure, each process before its wait; returns the starts and ended waits as they happened |
| StartAll.WaitComesTooLate | manager.go:118-125 | in any run, everything begun had its dependencies seen running before iff nothing begun has dependencies |
| StartAll.DependentBegunFirst | manager.go:118-125 | the least list on which a dependent is begun before anybody has looked at its dependency |
| StartAll.StartAll | manager.go:110-126 | what has been started is closed under transitive dependencies at every moment, error exits included; dependencies were seen running before the starts iff there are none |
| StartAll.CompleteRun | manager.go:118-138 | a run without error has started every process and observed all dependencies running |
| Observation.LetThroughAfterStarts | manager.go:542-551 | if the readings come from an execution, each dependency of a process let through had a child created for it before the next start |
| ProcessRecord.Process.constructor | manager.go:99-102 | a process begins stopped, with no command and no attempts |
| ProcessRecord.Process.StartProcess | manager.go:141-218 | nothing if running; otherwise running with a fresh child, or failed; never a child once cancelled; a settled record stays settled |
| ProcessRecord.Process.StopProcess | manager.go:220-270 | names the child whose exit it waits for; a running process ends stopped without a command, otherwise nothing changes; a settled record stays settled |
| ProcessRecord.RestartMeansRoom | manager.go:457-518 | a restart is decided iff one more in the same phase stays within the budgets, and the exit code is not zero where it counts |
| ProcessRecord.Process.MonitorExit | manager.go:373-424 | stopped after a clean exit and failed after any other, unless it was being stopped; the counter of the right phase counts a restart and nothing else changes; a settled record stays settled |
| StartupPhase.StartupCompletion | manager.go:293-307 | in every execution start-up is complete iff some timer has expired on the running process since its last child was created |
| SerialRecord.RecordsAreSerial | manager.go:150-424 | in every execution the record is what the completed critical sections make of it one after another, whatever happens while a start or stop holds the lock |
| SerialRecord.StateTellsThePast | manager.go:150-424 | in every execution a free record is stopped after nothing, a stop or a clean exit, running after a start that made a child, failed after any other start or exit; its command is the last child made unless a stop came after |
| SerialRecord.LockHoldersFindSettledRecords | manager.go:150-151 | whoever takes the lock finds a settled record with counters within budgets |
| SerialRecord.StartIsAtomic | manager.go:150-217 | the two halves of a start, whatever comes between, have the effect of the method and spawn a monitor and a tracker iff a child is created |
| SerialRecord.StopIsAtomic | manager.go:229-269 | the two halves of a stop, whatever comes between, have the effect of the method, and its child has exited in between |
| SerialRecord.StopLooksLikeCrash | manager.go:373-424 | a decision taken directly after a stop is the one that would have been taken directly before it, however the child ended |
| SupervisorSafety.InvariantKept | manager.go:141-455 | every step of every goroutine keeps lock discipline, restart conservation and budgets |
| SupervisorSafety.LiveChange | manager.go:209-214 | every step changes the number of live goroutines by what it adds to the wait group |
| SupervisorSafety.AlwaysSound | manager.go:141-455 | the invariant holds in every state of every execution of the whole manager |
| SupervisorSafety.LockHoldersSeeSettledStates | manager.go:150-217 | whoever takes the lock finds stopped, running or failed; running implies a command |
| SupervisorSafety.StoppingBranchIsDead | manager.go:374-379 | a deciding monitor never finds the process stopping |
| SupervisorSafety.WaitGroupCountsGoroutines | manager.go:445-453 | the wait group equals the live goroutines and is positive while a decided restart is outstanding |
| SupervisorSafety.RestartsAreConserved | manager.go:411-417 | attempts plus restarts equal restarts owed plus restarts performed, in every interleaving |
| SupervisorSafety.RestartBudgets | manager.go:457-518 | attempts, restarts and automatic restarts stay within the configured budgets; none under policy never |
| SupervisorSafety.AtMostOneChild | manager.go:153-155 | until a first stop finishes, a process has at most one live child and is running, or being stopped, iff exactly one monitor is undecided |
| RestartBounds.CrashLoopBound | manager.go:463-493 | in every execution automatic restarts are at most the start retries plus the completed start-ups plus the finished stops |
| RestartBounds.ChildrenHaveCauses | manager.go:200-214 | every child was created by a call of start, from a caller or from a restart goroutine |
| RestartBounds.ChildrenWithinBudgets | manager.go:457-518 | with finite budgets, children are at most the calls of start plus both budgets |
| RestartBounds.BrokenProcessGivenUp | manager.go:463-480 | a process none of whose start-ups has been completed has no more children than calls of start plus start retries |
| RestartLoops.EndlessRestarts | manager.go:293-297 | automatic restarts can go on without end iff the policy restarts and their number is unlimited, even if every child exits before its own timer expires; if the process has noticed each time, iff moreover a retry or a second call of start makes a second child |
| LiveChildren.NoChildSurvives | manager.go:229-248 | in every execution, a process with no finished stop, or one outside start, or two and no automatic restarts, has at most one live child, and none when the wait group is at zero |
| LiveChildren.WhenTwoChildrenLive | manager.go:246-248 | two live children are reachable iff a stop finishes and there are three outside starts, or two and the configuration allows automatic restarts |
| LiveChildren.OneStopAllowsManyChildren | manager.go:246-248 | live children are unbounded iff a stop finishes: one stop allows any number under every configuration, no stop allows but one |
| LiveChildren.WhenChildrenOutliveTheWait | manager.go:361-371 | a live child with nobody left to wait for is reachable iff two live children are |
| LiveChildren.Drain | manager.go:359-455 | when all monitors wait for dead children, all goroutines can end while the live children stay |
| StopAndRestart.StopIsNotFinal | manager.go:229-270 | a stopped process can come back by itself if and only if the configuration allows automatic restarts |
| StartupPhase.OnFailureRule | manager.go:463-515 | in every execution, a monitor under the on-failure policy asks for a non-zero exit code iff a timer has expired on the running process since its last child was created |
| StartupPhase.RunningHasChild | manager.go:543-548 | a process seen running, with or without its lock, runs on the child that its last start created |
| Shutdown.WorkIsBounded | manager.go:286-309 | after cancellation internal steps are bounded by the work left plus later calls, and no child is created |
| Shutdown.LiveManagerMoves | manager.go:359-455 | after cancellation, while the wait group is positive, some internal step is possible |
| Shutdown.ShutdownDrains | signals.go:58-60 | from cancellation on, steps are bounded and when none is left the wait group is zero |
| Shutdown.DrainedForGood | signals.go:58-60 | once drained after cancellation, the wait group stays at zero whatever is called |
| LogRotation.SortByTime | logging.go:204-211 | the exchange sort leaves a permutation in ascending order of modification time |
| LogRotation.ListBackups | logging.go:195-202 | lists every backup once with its modification time |
| LogRotation.ProcessLogger.constructor | logging.go:83-112 | opens or creates the file; the size kept is the size of the file, however large |
| LogRotation.OldestRemoved | logging.go:213-218 | removing the head of the sorted listing removes no file newer than one it keeps |
| LogRotation.ProcessLogger.CleanupOldBackups | logging.go:178-221 | keeps the smaller of all and the limit, unchanged, and nothing older than anything removed |
| LogRotation.ProcessLogger.Rotate | logging.go:140-176 | the current file becomes a backup, old backups are pruned, a new empty file is current |
| LogRotation.ProcessLogger.Write | logging.go:114-138 | a write that fits is appended and no backup changes; one that does not becomes a new file, and the old one a backup; the size kept is the size of the file, which is within the limit or holds just this write |
| LogHistory.PruningKeepsNewest | logging.go:204-218 | with strictly increasing times exactly the newest backups are kept |
| LogHistory.PrunedOnDisk | logging.go:213-218 | pruning cuts the oldest pieces off what is on disk |
| LogHistory.RotationRetains | logging.go:140-176 | a rotation under a fresh stamp keeps the end of the history |
| LogHistory.WriteRetains | logging.go:114-138 | so does a write, whether or not it rotates |
| LogHistory.HistoryIsComplete | logging.go:114-138 | the reference history is all bytes first on disk, then all bytes written |
| LogHistory.CutOnlyWhereFull | logging.go:125-131 | where the history is cut the two pieces would not have fitted into one file, and every piece begun fits into one or is a single write |
| LogHistory.RotationKeepsSuffix | logging.go:114-221 | over any run, backups in order of age and the current file are a suffix of all bytes, cut at rotations, with no more backups than allowed |
| LogHistory.CollisionOverwrites | logging.go:151-158 | a rotation gains a backup iff its stamp is new and there is room; a stamp in use is overwritten |
| LogHistory.RotationCollides | logging.go:140-176 | after a rotation under a stamp in use, the pieces on disk are the last pieces of the history iff all pieces it keeps, up to and including the one after the lost one, hold the same bytes |
| LogHistory.BytesCollide | logging.go:140-176 | the bytes on disk are a suffix of all bytes there ever were iff the kept bytes before the lost piece repeat it, or pruning removes it anyway |
| LogHistory.CrowdedCollision | logging.go:151-158 | two inputs: one where a hole is left, and one where the pieces differ but no byte is lost |
| LogHistory.CollisionLosesPiece | logging.go:114-138 | `RotationCollides`, about pieces, for the write that rotates |
| LogHistory.CollisionLosesBytes | logging.go:114-138 | `BytesCollide`, about bytes, for the write that rotates |
| LogHistory.TwoRotationsOneStamp | logging.go:151-158 | two rotations under one stamp, with any appends between: the pieces are the last of the history iff all backups before the second hold the same bytes, and the bytes are a suffix of all bytes iff the other backups repeat the lost one |
| Text.AtoiOfShow | yaml_config.go:250 | decimal printing and 64-bit parsing are inverse, and larger numbers are refused |
| Text.NormaliseForgives | config.go:218 | neither capitals nor surrounding white space matter |
| YamlConfig.MaxRestartsRoundTrip | config.go:256-272 | the infinite-or-decimal encoding is read back iff it is in range, and refused otherwise |
| YamlConfig.ToProcessConfig | yaml_config.go:141-214 | a setting given is read, each one left out is the resolved global one, or the first illegible field is reported |
| YamlConfig.ReadLogging | yaml_config.go:60-74 | reads format and level, or reports the first illegible one |
| YamlConfig.ReadDelays | yaml_config.go:80-94 | reads the shutdown timeout and restart delay, or reports the first illegible one |
| YamlConfig.ToGlobalConfig | yaml_config.go:57-126 | reads the global settings over the defaults, or reports the first illegible field |
| YamlConfig.ToConfig | yaml_config.go:56-138 | succeeds iff every field is legible, with the meaning of the record and each process inheriting from the result, and otherwise reports the first error |
| YamlConfig.FromConfig | yaml_config.go:233-276 | writes every field of the configuration and of each process |
| YamlConfig.RoundTrip | yaml_config.go:233-276 | for any configuration, reading what was written gives it back if and only if it is representable |
| YamlConfig.ZeroRetriesLost | yaml_config.go:96-98 | zero start retries, in an otherwise representable configuration, come back as the default and nothing else changes |
| YamlConfig.ReadConfigRoundTrips | yaml_config.go:56-138 | whatever is read from YAML survives being written and read again, inherited settings included |
| YamlConfig.InheritanceIsFillingIn | yaml_config.go:151-194 | leaving settings out of processes means the same as writing in the resolved global ones |
| YamlConfig.EmptyRecord | config.go:62-75 | the empty record means the built-in defaults |
| YamlConfig.GlobalDefaults | yaml_config.go:57-126 | each global setting left out is the default, whatever the others are |
| YamlConfig.WordsInAnySpelling | config.go:217-254 | policies, formats and levels are read in any mix of capitals and with any white space around them |
| YamlConfig.InfiniteInAnySpelling | config.go:256-261 | so are both words for unlimited restarts |
| YamlConfig.NumbersOfRestarts | config.go:262-272 | a number of restarts is read as itself unless negative or too large |
| YamlConfig.SomeCodecIsFaithful | yaml_config.go:80-86 | the hypothesis about durations can be met |
| CommandLine.ReadDependencies | main.go:255-261 | the pieces between commas, trimmed, blank ones left out |
| CommandLine.SplitIsExact | main.go:255 | the pieces joined again give the text, and none of them can be split |
| Text.TrimTakesMiddle | main.go:257 | trimming takes away the white space at both ends and nothing else |
| CommandLine.FlagRoundTrip | main.go:255-261 | names joined by commas are read back if and only if each is non-empty, trimmed and free of commas |
| CommandLine.PaddedFlagRoundTrip | main.go:255-261 | clean names with any white space around them and blank places between them are read back as the names |
| CommandLine.AlignedFromTheRight | main.go:253-254 | counted from the right, each flag goes to the process in its place; surplus flags at the front are not used |
| CommandLine.DefaultNamesDiffer | main.go:234-238 | processes without a name are numbered from one, and so differ |
| CommandLine.FlagsReachTheirProcesses | main.go:250-254 | flags given for just the processes with dependencies reach them if and only if no process without dependencies follows one with |
| CommandLine.FlagGoesAstray | main.go:253-254 | the least layout on which a flag reaches the wrong process |
| CommandLine.AddProcess | main.go:232-278 | one process from the flags that belong to it under the global settings, or its first fault |
| CommandLine.AddProcesses | main.go:232-280 | all processes in order, or the first fault |
| Health.HealthChecker.ExecuteHealthCheck | health.go:94-130 | records unhealthy if the check ended in an error and healthy if not, with its output, error and times; no other result changes |
| Health.HealthyIffLastChecksPassed | health.go:94-130 | after any checks, all is healthy iff for each name the last check passed |
| Health.HealthChecker.IsOverallHealthy | health.go:174-185 | positive iff every result is healthy |
| Health.HealthChecker.GetHealthSummary | health.go:188-241 | counts per status, the results themselves, and the overall status |
| Health.WhenSummariesAgree | health.go:173-241 | on any map the counts add up, and the two verdicts agree iff it is not the case that some are healthy, some unknown and none unhealthy |
| Health.ReachableSummariesAgree | health.go:94-241 | after any checks nothing is unknown and the two verdicts agree |

## Left out

- Operating-system processes, signals, pipes, shells and real time: child exits, exit codes, expiring timers and start failures are free choices of the environment. A cancelled context is assumed to prevent the creation of a child.
- The order of stops at shutdown: the stops run concurrently, so the computed order constrains nothing. The stop grace period and the kill after it are the child exit that a stop waits for.
- A reader that looks at a process state without its lock, as the dependency wait does, is not a goroutine of `Supervisor`: each reading is an input of `StartAll`, tied to executions by `Observation`. Go's memory model for such a race is not modelled.
- File-system failures during rotation, partial writes, writing to standard output when there is no log directory, and log names of one process that match the backup pattern of another.
- YAML text itself: the model starts from the decoded record. Printing and parsing of durations are an abstract codec, assumed to be `YamlConfig.Faithful`: parsing undoes printing on 64-bit values, yields no others, and refuses the empty string.
- Two concurrent waits for one child (`manager.go:247` and `manager.go:371`): the model assumes that both return once the child has exited, which the Go library does not promise. `StopAndRestart.StopIsNotFinal`, `LiveChildren` and the draining after a stop rest on it.
- ProcessRecord.Process.StopProcess: the method only names the child it waits for. That the child has exited before the stop ends is `SerialRecord.StopIsAtomic`.
- Text.LowerChar: letters whose lower case is not ASCII are left as they are, which no accepted word contains.
- Structured logging, the prefixing writers, HTTP routing and JSON encoding: presentation with no state of their own.
- The global options of the command line, enum parsers beyond the round trip, log-level mapping and getters: each is settled by reading one branch.
