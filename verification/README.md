# stormd, verified

A Dafny model of the parts of stormd, a PID 1 supervisor, whose correctness is
hardest to see by reading one function: the shutdown planner and the shutdown
run, the restart policy, the probe tasks of overlapping runs, the publication
of API health by concurrent recorders, rotated and failing log files, reload
caches, golden volumes under failure, the event store, the zombie tracker, OCI
layers, base64, gRPC health frames and the `find -name` matcher.

`dafny verify dfyconfig.toml` checks the project.

## How it is modelled

- One module per component. Where the source updates a record in place there is
  a class. Most keep a ghost history of what was done to them, their `Valid()`
  says that the fields are what that history comes to, and what the source
  promises is proved about every history.
- Where tasks share a record, a protocol is a step relation: `Step(s, a, t)` is
  one locked section, one file operation or one answer from outside, and a run
  is any sequence of steps. Lemmas then speak of every state of every run, so of
  every interleaving.
- `Shutdown.Supervisor` keeps the method form: `others`, any function of the
  step and of how things stand, says what the other tasks have made of things at
  each lock, clock reading and sleep. `StopAll` is verified to leave exactly the
  trace of such steps that `Trace` defines, and the theorems are about that
  trace, for every `others`.
- The clock, spawn, kill, probe answers, file contents, the engine's answers and
  mounts are parameters or nondeterministic outcomes. Times are milliseconds.
- Machine integers are unbounded except where width matters: `cooloff`'s
  saturation and shift cap, the base64 buffer's 32 bits, a varint's 64 bits,
  the gRPC length's 32 bits and `backoff_step`'s saturation are explicit.
- Shifts, masks and ors of disjoint bits are arithmetic (`Shl`, `Shr`, `Low`,
  `Up`, `%`).

## What turned out different from the documentation

- `README.md:594` gives the delay before restart *n* in the window as the base
  times 2^(n-1). `handle_exit` passes `cooloff` the restarts made before this
  one, so the first two wait the same. `Process.DocumentedDelay` says exactly
  when the documented delay is met.
- `README.md:581` has a process stopped, and waited for, before anything it
  depends on. The wait is of its tier, until the tier's longest stop timeout and
  two seconds are over (`Shutdown.DependentsGoneFirst`), and a spawn that had
  looked at the flag before shutdown set it still lands. `Shutdown.OrderIsKeptIff`
  says when the order is kept against everything others may do: if and only if
  the process can be up only once, or what it depends on cannot be. Of two that
  run when shutdown begins: if and only if no spawn of the first is under way.
  What others may do is what `Restarts` proves of every step
  (`Restarts.StepsAreLawful`), and a process that runs with a spawn under way is
  a state shutdown can find (`Restarts.ARunningProcessHasASpawnUnderWay`).
- The comment at `supervisor.rs:560` says exits of one process cannot overlap.
  A start through the API is refused only while the process is Running, so one
  that comes during a cool-off, or with another start, makes them overlap. With
  at most *k* handlers between counting and noting, no window holds more than
  `max_restarts + k - 1` restarts (`Restarts.RestartsAreLimited`), and for every
  configuration that restarts an exit and every *k* that many are reached
  (`Restarts.TheLimitIsReached`).
- Shutdown does not end restarts at once: a spawn that had looked at the flag
  before it was set still forks. That can happen if and only if a handler is
  past that look (`Restarts.RespawnsAfterShutdownIff`); no other ever forks
  (`Restarts.OnlyTheLateFork`). `main.rs:537-544` stops everything twice for it.
- The comment at `supervisor.rs:1065` has an exit while stopping counted as the
  stop. If shutdown begins between a restart's own look at the flag and its
  spawn's, the spawn fails, and the process is Failed and the container failed
  (`Restarts.FailsAfterShutdownIff`, `Restarts.ShutdownMeetsARestart`).
- `README.md:612` says a process under a restart policy never fails the container.
  It does when it exits with a code of `no_restart_exit_codes` and `on_no_restart`
  is `fail`; `Restarts.PolicyFailsTheContainerIff` has the exact condition.
- `stop_tiers`' comment (`supervisor.rs:1522`) has depth capped at the number of
  processes. It is below it without cycles (`StopTiers.DepthsFit`); with one, a
  memoised depth can pass it: `c` on a ring of `a` and `b` is given 4 of 3
  (`StopTiers.ARingDeepensPastTheCount`). The square of that number is the bound
  for every graph (`StopTiers.DepthsAreBounded`), and there are graphs of every
  size that meet it (`StopTiers.TheBoundIsMet`). The order is stated for acyclic graphs,
  termination and one tier for each process for all.
- The rotated generations kept are `max_files` (`README.md:542`), but 0 keeps one
  all the same: `max_files` rotated files and the live one bound the disk if and
  only if `max_files` is not 0 (`LogFile.TheLimitHoldsIff`). `max_size_bytes = 0`
  bounds a file as 1 does.
- Two errors said about a failing log file are a minute apart unless a line was
  appended in between (`LogFile.ErrorsAreSpaced`), and then may be a second apart
  (`LogFile.TwoSpellsAreSaidSoon`).
- An API's stall may reach back before the current run: `since` is kept per
  process and API, not per run. A run whose first probe times out is ended there
  and then if and only if the probes of the runs before ended in timeouts that
  span the limit (`ApiHealth.FirstTimeoutEndsTheRunIff`,
  `ApiHealth.ANewRunEndsOnItsFirstTimeout`).
- Validation keeps golden names apart within a process, and paths not at all. One
  golden is in another's way if they are of one kind and their paths name one
  place, or if it is a file system and the other lies under its path, which its
  mount then hides. What is presented stays attached, found at its path and as
  configured in every run if and only if no golden is in another's way
  (`Goldens.AlwaysSoundIff`). Two processes that name a golden alike, and no path
  (`Goldens.AlikeNamesShareAPlace`), two spellings of a path
  (`Goldens.TwoSpellingsShareAPlace`) and a path under another
  (`Goldens.AMountHidesWhatIsUnder`) pass validation and are in the way.
- The gRPC frame reader skips a length-delimited field by its length and never
  asks whether its bytes are there. The last field of a message may so be cut
  short, and a status is served from it (`GrpcHealth.ServedIsTheStatus`).
- `glob_match` misses names exactly for patterns that end in two stars or more
  (`Glob.CompleteUnlessTwoStarsEnd`), which then want one character at least
  (`Glob.MatchesItsEffect`).
- A whiteout removes what its own layer put before it. Unpacking gives the
  overlay of the OCI image specification exactly when no whiteout has the last
  word on a path of its own layer (`Layers.LayerIsOverlaidIff`).

## Model

| member | source | states |
|---|---|---|
| `StopTiers.Depth` | crates/stormd/src/supervisor.rs:1798-1822 | on an acyclic graph the budget is never 0 and the memoised result is the longest dependency path; on any graph it terminates and keeps a true memo true |
| `StopTiers.AcyclicPathsAreShort` | crates/stormd/src/supervisor.rs:1823-1827 | why the number of processes is budget enough: a path of an acyclic graph visits each at most once |
| `StopTiers.DependentsAreDeeper` | crates/stormd/src/supervisor.rs:1520-1523 | a process's longest path is strictly longer than that of everything it transitively depends on |
| `StopTiers.StopTiers` | crates/stormd/src/supervisor.rs:1797-1837 | each process is in exactly one tier, no tier is empty and each is sorted, and without cycles everything is in a strictly earlier tier than whatever it transitively depends on; cyclic graphs and unknown names included |
| `StopTiers.OnePlan` | crates/stormd/src/supervisor.rs:1797-1837 | whoever asks, a graph, cyclic or not, has one plan: the tiers of the budget are those carried out |
| `StopTiers.DepthsFit` | crates/stormd/src/supervisor.rs:1522-1523 | without cycles every depth is below the number of processes |
| `StopTiers.ARingDeepensPastTheCount` | crates/stormd/src/supervisor.rs:1522-1523 | three processes, two in a ring, one of which is given depth 4 |
| `StopTiers.DepthsAreBounded` | crates/stormd/src/supervisor.rs:1798-1822 | on every graph, cycles or not, no depth is more than the square of the number of processes |
| `StopTiers.TheBoundIsMet` | crates/stormd/src/supervisor.rs:1798-1822 | for every n above 0, a graph of n processes, each depending on itself and on the one before, whose last is given depth n * n |
| `StopTiers.DeepestFirst` | crates/stormd/src/supervisor.rs:1834-1836 | reversing the levels and dropping empty ones keeps a partition ordered by level, deepest first |
| `StopTiers.Place` | crates/stormd/src/supervisor.rs:1828-1833 | the process joins its own level and no other level changes, however far the levels had to grow |
| `Shutdown.Supervisor.ShutdownBudget` | crates/stormd/src/supervisor.rs:1539-1553 | the sum, over the one plan there is, of each tier's longest stop timeout and the slack |
| `Shutdown.Supervisor.Signal` | crates/stormd/src/supervisor.rs:1480-1493 | one turn: whatever the others did before the lock, a process Running with its kill handle is marked Stopping and its handle taken, and no other changes |
| `Shutdown.Supervisor.AwaitTier` | crates/stormd/src/supervisor.rs:1495-1516 | the wait from the clock reading on, with a deadline the time allowed after it: the tier looked at every 50 ms until none of it is stopping or the deadline has passed |
| `Shutdown.Supervisor.StopAll` | crates/stormd/src/supervisor.rs:1472-1518 | the flag is set, and the steps taken and the state left are exactly those of the plan carried out tier by tier against `others` |
| `Shutdown.TraceIsChained` | crates/stormd/src/supervisor.rs:1472-1518 | each step of it sees what the others made of what the step before left, so all the change between is theirs |
| `Shutdown.AStepStopsAtMostOne` | crates/stormd/src/supervisor.rs:1480-1493 | all that a step of it itself changes is a process that has its turn, runs and has its kill handle: it is Stopping and has it no more |
| `Shutdown.EachHasOneTurn` | crates/stormd/src/supervisor.rs:1476-1493 | every process has one turn, tier after tier and sorted within a tier |
| `Shutdown.DependentsGoneFirst` | README.md:580-582 | against any `others`, in any tiers with dependents first, so in the plan of an acyclic graph: between the turn of a process and that of anything it transitively depends on, it was seen out of Stopping, or the clock had moved on by the stop timeout and two seconds of every process of its tier since it was first read |
| `Shutdown.StopsAreSeenThrough` | crates/stormd/src/supervisor.rs:1495-1516 | the same of every process whose turn came before the call returns, on any graph |
| `Shutdown.NoNeedlessSleep` | crates/stormd/src/supervisor.rs:1495-1516 | and it waits no longer: every sleep follows a look that found one of the tier stopping and a reading of the clock before the stop timeout and two seconds of some process of it were over |
| `Shutdown.OrderIsKeptIff` | README.md:580-582 | a process sent its stop is neither Running nor Stopping when anything it transitively depends on is sent its own, against all `others` that let a process run again only by a spawn under way when shutdown began, all the time its tier may take not being over, if and only if it can be up no more than once (its child and its spawns under way counted) or the other not at all; of two that run then, if and only if no spawn of the first is under way |
| `Shutdown.DependentsAreGone` | crates/stormd/src/supervisor.rs:1472-1518 | of any two stops in one run: a process that could be up only once is gone for good by the second, or all the time its tier may take is over |
| `Lives.MayBecomeIff` | crates/stormd/src/supervisor.rs:806-832 | what the others may make of a process between two steps of `stop_all`, said in one comparison, is exactly what any number of landings, failed spawns, stops and ends can come to |
| `Shutdown.ShutdownIsWithinBudget` | crates/stormd/src/supervisor.rs:1536-1553 | against any `others`, all sleeps of a shutdown add up to at most its budget and less than one poll a tier |
| `Shutdown.BudgetAddsUp` | crates/stormd/src/supervisor.rs:1539-1553 | the budget of no tiers is 0, and one tier more adds its longest stop timeout and two seconds |
| `Process.ManagedProcess.RestartCountInWindow` | crates/stormd/src/supervisor.rs:143-149 | the loop gives the size of the set of restart times later than now less the window |
| `Process.OldRestartsDoNotCount` | crates/stormd/src/supervisor.rs:143-149 | however many restarts lie before the window, the count is that of the others |
| `Process.RunsAreCounted` | crates/stormd/src/supervisor.rs:821-832 | after any sections the run number is the number of spawns begun |
| `Process.ManagedProcess.RecordExit` | crates/stormd/src/supervisor.rs:1040-1063 | an exit: the restarts in the window are the set of those noted by every earlier section and later than now less the window, this exit's own not among them |
| `Process.RestartsAreNoted` | crates/stormd/src/supervisor.rs:1181-1186 | after any sections the restart counter and the restart times are the restarts noted, under either policy |
| `Process.ManagedProcess.NoteBackOff` | crates/stormd/src/supervisor.rs:1616-1627 | the nth back-off in a row, counted from the last ten-minute run, waits min(300, 10 * 2^(n-1)) s, the 32-bit step notwithstanding |
| `Process.StartupIsOfThisRun` | crates/stormd/src/supervisor.rs:248-266 | after any sections startup is marked for the current run if and only if the startup probe of that run passed during it |
| `Process.LivenessIsOfThisRun` | crates/stormd/src/supervisor.rs:291-305 | after any sections there are at least n liveness failures if and only if the last n results of the current run failed, and its mark is there if and only if one was good; late results of ended runs count for nothing |
| `Process.ReadyIsTheLastWord` | crates/stormd/src/supervisor.rs:332-353 | ready is what was last said by the begin or exit of a run or by the probes of the run current then, never by those of an ended one |
| `Process.TheLastChildIsRecorded` | crates/stormd/src/supervisor.rs:896-905 | the start time is when the last child was marked Running, the pid is its pid until an exit is recorded |
| `Process.StateIsWhereItWasPut` | crates/stormd/src/supervisor.rs:821-832 | the state is what the last begin, marking or restart made of it |
| `Process.CrashesAreCounted` | crates/stormd/src/supervisor.rs:1065-1080 | the crash counter is the number of sections that count a crash |
| `Process.CoolOffIsCappedDoubling` | crates/stormd/src/supervisor.rs:1945-1951 | for every base and count, the shift cap and the saturating product lose nothing against min(30, max(1, base) * 2^max(0, k-1)) |
| `Process.BackOffIsCappedDoubling` | crates/stormd/src/supervisor.rs:1742-1745 | the shift cap loses nothing against min(300, 10 * 2^step) |
| `Process.DocumentedDelay` | README.md:594-596 | the documented delay is the one waited if and only if the base is not 0 and this is the first restart or the wait before it had reached 30 s |
| `Restarts.RestartsAreLimited` | crates/stormd/src/supervisor.rs:1021-1274 | in every run without a restart policy, no set of restarts in one window, anywhere in time, has more than max_restarts + k - 1 members while at most k handlers overlap; with k = 1, max_restarts |
| `Restarts.TheLimitIsReached` | crates/stormd/src/supervisor.rs:1050-1058 | for every configuration that restarts some exit, with a window and max_restarts at least 1, and every k: a run of children really started, with at most k handlers overlapping, that notes max_restarts + k - 1 restarts in one window |
| `Restarts.SpawnsGoForward` | crates/stormd/src/supervisor.rs:806-832 | a spawn passes its look at the flag while that is not set, then begins one new run, then forks, and takes no step back |
| `Restarts.StartsGoForward` | crates/stormd/src/supervisor.rs:806-832 | so does a start of the API or the start order; one that is not a restart's is refused to a running process |
| `Restarts.EndsLeaveNoChild` | crates/stormd/src/supervisor.rs:983-994 | a stop that lands leaves the process Stopped, without a pid and not ready |
| `Restarts.EveryChildIsForked` | crates/stormd/src/supervisor.rs:896-1000 | in every run the forks that worked are as many as the children on their way, those running and those whose end was taken, an exit or a stop: none ends twice |
| `Restarts.RestartsCountTheirTimes` | crates/stormd/src/supervisor.rs:1181-1186 | in every run, under any policy, the restart counter is the number of restart times |
| `Restarts.RestartsAreThoseNoted` | crates/stormd/src/supervisor.rs:1181-1186 | in every run, under any policy, the restart counter is the restarts of the exits that are done with and of those still waiting or spawning: none is counted twice or lost |
| `Restarts.OnlyTheLateFork` | crates/stormd/src/supervisor.rs:1641-1651 | from the moment shutdown begins, a handler or a start forks at most once, and only if it was past its look at the flag then |
| `Restarts.RespawnsAfterShutdownIff` | crates/stormd/src/supervisor.rs:806-832 | shutdown having begun, some continuation respawns if and only if some handler is past that look and not yet forked |
| `Restarts.FailsAfterShutdownIff` | crates/stormd/src/supervisor.rs:1065-1075 | shutdown having begun with the container sound, some continuation fails it by an exit if and only if a handler past its flag check decided on that, or restarts a failed process and is past the look after its wait |
| `Restarts.ShutdownMeetsARestart` | crates/stormd/src/supervisor.rs:1644-1651 | both come about: for every configuration and exit that is restarted, runs from a fresh process to such states |
| `Restarts.AWaitingRestartCanRun` | crates/stormd/src/supervisor.rs:1187-1212 | from every state in which a handler waits and shutdown has not begun, a continuation in which its wait ends, its child is forked and the process runs |
| `Restarts.StepsAreLawful` | crates/stormd/src/supervisor.rs:806-832 | once shutdown has begun, every step of every handler, start and child lets the process become Running only by using up a spawn that was past its look at the flag, and Stopping only from Running: the `others` of `Shutdown.OrderIsKeptIff` |
| `Restarts.WhatIsUnderWayLands` | crates/stormd/src/supervisor.rs:806-832 | and from every state such a spawn can land, whatever the process has become |
| `Restarts.ARunningProcessHasASpawnUnderWay` | crates/stormd/src/supervisor.rs:806-832 | for every configuration, a run from a fresh process to a shutdown that finds it Running with a spawn under way |
| `Restarts.AnExitIsCounted` | crates/stormd/src/supervisor.rs:1040-1063 | a handler is given the exit's code, the size of the set of restarts in the window then, and the whole seconds the child ran |
| `Restarts.ExitsEndAsDocumented` | README.md:584-596 | in every run, under any policy and however handlers overlap, each exit ends as the row of the documented table for its code and for the set of restarts really in the window has it, a restart only after min(30, max(1, base) * 2^max(0, k-1)) s; once shutdown has begun it may be left stopped, and a respawn may fail |
| `Restarts.RestartsWhenDue` | crates/stormd/src/supervisor.rs:1187-1212 | in every run a wait ends exactly from that time on; under a restart policy also when shutdown begins |
| `Restarts.CrashesAreFailures` | crates/stormd/src/supervisor.rs:1065-1080 | in every run the crash counter is the number of failures whose handlers found shutdown not begun |
| `Restarts.BackOffsDouble` | crates/stormd/src/supervisor.rs:1591-1637 | in every run under a restart policy the nth back-off in a row waits min(300, 10 * 2^(n-1)) s and no longer, a run of 600 s or more as its exit was counted beginning the row again, every respawn comes after its wait, and the step's saturation loses nothing |
| `Restarts.PolicyFailsTheContainerIff` | README.md:606-620 | under a restart policy some run fails the container if and only if `on_no_restart` is to fail it and a code other than 0 is declared beyond restarting |
| `Probes.TallyCountsUnbroken` | crates/stormd/src/probes.rs:338-353 | over every history of results a counter has reached n exactly when the last n results were all of that kind |
| `Probes.Counter.Record` | crates/stormd/src/probes.rs:341-353 | a threshold is reported if and only if the last results, as many as it says, were all of this kind |
| `Probes.RunsKeep` | crates/stormd/src/supervisor.rs:231-376 | the invariant of every interleaving of old and new runs' probe tasks with spawns, exits and aborts |
| `Probes.AnswersDecide` | crates/stormd/src/supervisor.rs:246-275 | in every run, after an answer a startup or readiness task holds a pass if and only if its last answers, as many as the success threshold says, were all good, and a failure, or is to kill, if and only if its last ones, as many as the failure threshold says, all failed; else it goes back to its loop |
| `Probes.MarksTell` | crates/stormd/src/supervisor.rs:249-353 | in every run, what a task of the current run holds is marked: startup passed and liveness and readiness begun, ready as readiness found it, liveness counted and its run to be killed exactly when its last answers, as many as the failure threshold says, all failed |
| `Probes.ALandedRunIsProbed` | crates/stormd/src/supervisor.rs:896-976 | in every run, a child marked Running has just the tasks its configuration asks for, each at its loop's top with no answers |
| `Probes.TasksOfThisRunProbe` | crates/stormd/src/supervisor.rs:238-243 | a task probes again if and only if its run is the current one and running |
| `Probes.WhatMayBeKilledIs` | crates/stormd/src/supervisor.rs:1004-1019 | a task that is to kill signals its own run's child, and no other, and SIGKILL only a process still Running |
| `Probes.PassesAreEarned` | crates/stormd/src/supervisor.rs:246-275 | in every run, what counts as passed did so by its own last answers |
| `Probes.HealthIsReached` | crates/stormd/src/supervisor.rs:1354-1375 | for every configuration, whatever the thresholds, a run from a fresh process to one whose probes are reported healthy |
| `Probes.ReadyMeansThisRunPassed` | crates/stormd/src/supervisor.rs:642-671 | a process that starts unready is ready only if the probe that decides readiness has passed for its current run |
| `Probes.LivenessWaitsForStartup` | crates/stormd/src/supervisor.rs:286-316 | liveness passed for the current run implies startup passed for it, when there is a startup probe |
| `Probes.SignalsHitTheirOwnRun` | crates/stormd/src/supervisor.rs:1004-1019 | every signal a probe task ever sent went to its own run's child while that run was current, after its threshold of failures in a row and, for liveness, after startup had passed |
| `Probes.EndedRunsTouchNothing` | crates/stormd/src/supervisor.rs:253-376 | a step of a task whose run has ended changes neither the process nor another task and signals nothing |
| `Probes.HealthIsOfThisRun` | crates/stormd/src/supervisor.rs:1354-1375 | a process whose probes are reported healthy has passed each configured probe in this very run |
| `ApiPublish.RunsKeep` | crates/stormd/src/apihealth.rs:143-211 | the invariant of any number of recorders, interleaved step by step, with writes and renames that may fail |
| `ApiPublish.RenameFindsItsOwnFile` | crates/stormd/src/apihealth.rs:145-150 | at every rename the temporary file is there, whole, and the one this recorder wrote |
| `ApiPublish.NothingIsWrittenUnasked` | crates/stormd/src/apihealth.rs:129-144 | in every run a state file is set once at most, and no file is written before it is |
| `ApiPublish.PublishedOnlyForward` | crates/stormd/src/apihealth.rs:139-142 | the state file is never partial and never goes back to an older map |
| `ApiPublish.AtRestTheFileIsCurrent` | crates/stormd/src/apihealth.rs:139-142 | with no publish outstanding the state file is the current map if the last publish to end ended in a rename that worked, and whole in any case |
| `ApiPublish.AllCanBePublished` | crates/stormd/src/apihealth.rs:140-154 | from every state of every run, whatever failed before: a continuation in which every publish outstanding ends and the state file is the map as it is |
| `ApiPublish.WithoutTheLockARenameFindsNothing` | crates/stormd/src/apihealth.rs:145 | without the publish lock there is a run in which a rename finds its file gone |
| `ApiHealth.PercentileIsLeast` | crates/stormd/src/apihealth.rs:67-75 | the percentile is one of the latencies, and a bound is not less than it exactly when one latency at least, and pct in a hundred of them, are at or below the bound |
| `ApiHealth.StateIsTheLastProbes` | crates/stormd/src/apihealth.rs:45-64 | after any history: stalled after a timeout, down after an error or a status of 400 or more, slow when its latency is over the one budget or more than half of the last twenty are over the other, and healthy if not |
| `ApiHealth.ApiHealth.Record` | crates/stormd/src/apihealth.rs:158-208 | one probe's whole effect on an entry, the window kept to twenty |
| `ApiHealth.EntryTellsTheHistory` | crates/stormd/src/apihealth.rs:177-207 | after any history: the window is the last twenty latencies answered, the percentiles are of it, the state is the last probe's, and `since` is the first probe of the unbroken block in that state |
| `ApiHealth.BlockStartIsMaximal` | crates/stormd/src/apihealth.rs:195-202 | that block is maximal: every probe from its start left the API in its state, the one before did not |
| `ApiHealth.StallIsUnbrokenTimeouts` | crates/stormd/src/supervisor.rs:405-411 | a run is ended for a stall exactly when the latest probes, in an unbroken row spanning the limit, all timed out |
| `ApiHealth.FirstTimeoutEndsTheRunIff` | crates/stormd/src/supervisor.rs:405-411 | a run is ended on its very first probe if and only if that timed out and the probes of the runs before ended in a row of timeouts spanning the limit |
| `ApiHealth.ANewRunEndsOnItsFirstTimeout` | crates/stormd/src/supervisor.rs:405-411 | such a history |
| `LogFile.FileLogger.Rotate` | crates/stormlog/src/file.rs:255-280 | the descending renames move every generation up by one, the live file becoming the first and only the oldest lost |
| `LogFile.FileLogger.WriteAt` | crates/stormlog/src/file.rs:68-167 | the whole effect of one write on files, size and failing state, for an append that works or fails |
| `LogFile.ReadBackIsASuffix` | crates/stormlog/src/file.rs:101-127 | after any writes with any failures, the generations oldest first and then the live file are a contiguous suffix of everything appended, in order |
| `LogFile.FilesAreCutWhenFull` | crates/stormlog/src/file.rs:100-104 | after any writes, every rotated file holds max_size_bytes or more and held less before its last append, the live one held less before its last, and nothing was deleted before as many rotated files as are kept held that much each |
| `LogFile.ANotFullFileTakesTheLine` | crates/stormlog/src/file.rs:100-128 | a line written to a live file of less than max_size_bytes rotates and deletes nothing, and is read back after all that was read back before |
| `LogFile.LinesAreTriedWhenDue` | crates/stormlog/src/file.rs:82-148 | after any writes, a line is tried if and only if the file is not failing or its last failure is a second ago; one that works is there in full after the number of those lost, any other is one more of those |
| `LogFile.ErrorsAreSaidWhenDue` | crates/stormlog/src/file.rs:87-162 | after any writes, an error is said exactly when a file starts to fail and by a waiting line a minute after the last |
| `LogFile.DiskUseIsBounded` | crates/stormlog/src/file.rs:100-104 | at most max_files rotated files are kept, or one if that is 0, and the total size is at most one more than that times (max_size_bytes - 1 + longest append) |
| `LogFile.TheLimitHoldsIff` | crates/stormlog/src/file.rs:255-280 | (max_files + 1) * (max_size_bytes - 1 + longest append) bounds the disk in every run if and only if max_files is at least 1 |
| `LogFile.NoLineUnaccounted` | crates/stormlog/src/file.rs:84-166 | after any writes, lines written, lines announced in gap markers and lines counted lost add up to the lines offered |
| `LogFile.RetriesAreApart` | crates/stormlog/src/file.rs:85-98 | with a clock that does not go back, failed attempts are at least a second apart |
| `LogFile.ErrorsAreSpaced` | crates/stormlog/src/file.rs:87-96 | after any writes, any two errors said are a minute apart or have an append between them |
| `LogFile.TwoSpellsAreSaidSoon` | crates/stormlog/src/file.rs:150-162 | with an append between them they can be a second apart, whatever the configuration |
| `LogFile.ReaderSeesTheWritersOrder` | crates/stormlog/src/store.rs:149-182 | however the directory lists the generations, the reader takes them in the order they were written |
| `Layers.Rootfs.ClearDir` | crates/stormd/src/updater.rs:310-323 | clearing child by child removes exactly what is below the directory, and not the directory |
| `Layers.NamesAreParsed` | crates/stormd/src/updater.rs:302-338 | what an entry's name means: `.wh.` and a name hides what has that name in its directory and all below it, `.wh..wh..opq` all below its directory, and no other name hides anything; every other name provides its path and the directories to it |
| `Layers.Rootfs.UnpackArchive` | crates/stormd/src/updater.rs:300-344 | the loop over the entries leaves every path as the entries' names, one after the other, have it |
| `Layers.Rootfs.Assemble` | crates/stormd/src/updater.rs:253-270 | the loop over the layers has the effect of the layers in order: their overlay, where no whiteout has the last word |
| `Layers.LayerIsOverlaidIff` | crates/stormd/src/updater.rs:300-344 | unpacking a layer gives the overlay meant by the OCI image specification, over every lower file system, if and only if no whiteout has the last word on a path its own layer provides |
| `Layers.AssembledIsOverlay` | crates/stormd/src/updater.rs:253-270 | then all layers unpacked one entry at a time are the overlay of the layers |
| `Layers.WhiteoutsBeforeEntries` | crates/stormd/src/updater.rs:308-338 | a layer whose whiteouts precede the entries they would cover is such a layer |
| `Layers.AlwaysRooted` | crates/stormd/src/updater.rs:308-341 | no sequence of entries leaves a node without its directories |
| `Caches.TokenFile.Current` | crates/stormd/src/auth.rs:65-81 | if stamps never recur, a call returns what the file held at some moment of it, and an unchanged stamp reads nothing |
| `Caches.TokenReadsAreFresh` | crates/stormd/src/auth.rs:65-81 | with changes between stamping and reading and any callers, every call returns what the file held at some moment of that call |
| `Caches.UnchangedFileReadsFresh` | crates/stormd/src/auth.rs:65-81 | a call during which the file does not change returns what a fresh read would |
| `Caches.ACallAnswersWithTheFile` | crates/stormd/src/auth.rs:65-81 | in every run, between the step at which a call takes its stamp and that at which it returns there was one at which the file held what it returns |
| `Caches.ARecurringStampHidesAChange` | crates/stormd/src/auth.rs:66-70 | a run in which a stamp that recurs makes a call return an old token: stamps must not recur |
| `Caches.ReloadingCert.Get` | crates/stormd/src/tls.rs:97-118 | what is served loads and matches, is the files' own pair if they did not change during the call and load, and a pair once loaded is not dropped |
| `Caches.PairsAreServedWell` | crates/stormd/src/tls.rs:79-118 | with either file changing between any two steps, only matching pairs are served, and a call during which neither changes serves the files' pair whenever it loads |
| `Caches.ALoadedPairStays` | crates/stormd/src/tls.rs:103-116 | a loaded pair is never dropped, whatever the files become |
| `Caches.ACallServesTheFiles` | crates/stormd/src/tls.rs:97-118 | in every run, a call serves at its last step a pair that loads, if any, and the files' own if they load and are what they were at its first |
| `Caches.ALoadIsForAChange` | crates/stormd/src/tls.rs:97-104 | a call that has the lock loads if and only if a stamp has changed or there is nothing to serve, and serves what there is if not |
| `Caches.AnyCallCanEnd` | crates/stormd/src/tls.rs:97-118 | from every state of every run each call outstanding has a continuation in which it serves |
| `Goldens.Presenter.Present` | crates/stormd/src/goldens.rs:227-265 | what was asked for is attached by its holder, found at its path and recorded, or nothing recorded changes and the attach of a failed placing is given back when the engine takes it |
| `Goldens.Presenter.Release` | crates/stormd/src/goldens.rs:269-286 | the golden is gone, and detached if it says so; or it could not be unmounted, being busy, hidden or with a mount below it, and all is as it was; sound if no golden is in another's way |
| `Goldens.Presenter.PresentAll` | crates/stormd/src/goldens.rs:291-315 | every golden named is presented when it says so, none presented before is disturbed, and it is sound if no golden is in another's way |
| `Goldens.Presenter.SwapGolden` | crates/stormd/src/supervisor.rs:456-516 | if it works the new golden is named and presented, if not the configuration stands and nothing else is presented; no other golden is touched; sound if no golden is in another's way |
| `Goldens.SwapKeepsSound` | crates/stormd/src/supervisor.rs:456-516 | a swap that works presents the new golden and names it; one that fails leaves the configuration, and whatever is presented is what it names |
| `Goldens.SwapWorksIff` | crates/stormd/src/supervisor.rs:456-516 | a swap works if and only if exactly one of golden and volume is named, the old one can be released, and then the new one be presented at its path |
| `Goldens.TheOldOneIsPresentedAgain` | crates/stormd/src/supervisor.rs:498-516 | when the old one is released and the new one cannot be presented, the old one is presented again if and only if that is possible |
| `Goldens.PresentsIff` | crates/stormd/src/goldens.rs:227-265 | presenting works exactly with a volume, an attach and a place where it can be made; a failure leaves what its calls left and records nothing |
| `Goldens.ReleasesIff` | crates/stormd/src/goldens.rs:269-286 | a golden is gone exactly if it can be unmounted or removed, and released exactly if its attach is given back too |
| `Goldens.TheDefaultIsUnderDir` | crates/stormd/src/goldens.rs:167-172 | a golden that names no path appears in the directory for goldens under its own name, however that directory is spelt |
| `Goldens.AlwaysSoundIff` | crates/stormd/src/goldens.rs:227-315 | for every configuration that passes validation: after any presents, releases and swaps with any failures, every presented golden is attached by its holder, found at its path and what its process names, if and only if no golden would take another's place or hide it: paths taken by their components, a mount hiding what is at or below it |
| `Goldens.AlikeNamesShareAPlace` | crates/stormd/src/goldens.rs:167-172 | two processes that name a golden of one kind alike, and no path for it, fail that condition |
| `Goldens.TwoSpellingsShareAPlace` | crates/stormd/src/config.rs:727-729 | so do two goldens of one kind whose paths differ in a doubled slash or a dot, which validation lets through |
| `Goldens.AMountHidesWhatIsUnder` | crates/stormd/src/goldens.rs:251-264 | and a file system with a golden one name below its path, whatever the two paths are |
| `Places.PutKeeps` | crates/stormd/src/goldens.rs:64-100 | whatever can be placed at all, a mount on top or a node in place of the one before, leaves to be found everything whose place it does not take or cover |
| `Places.TakeUndoesPut` | crates/stormd/src/goldens.rs:269-286 | taking away what was placed last leaves all as it was before, a node it replaced apart |
| `Places.OnlyTheLastMountCanBeTaken` | crates/stormd/src/goldens.rs:101-104 | a mount made last can be unmounted, and one with a mount below it, or hidden by one, cannot |
| `Places.WhatStandsInTheWay` | crates/stormd/src/goldens.rs:64-100 | no node where there is a directory or a mount, and neither where a node is or would have to be a directory |
| `Places.PlaceAbove` | crates/stormd/src/goldens.rs:167-172 | `..` at the end of a path is the place that holds it |
| `Goldens.HoldersTellApart` | crates/stormd/src/goldens.rs:175-177 | two goldens never share a holder, whatever the processes are called: golden names have no slash (config.rs:721) |
| `K8sEvents.EventStore.Add` | crates/stormd/src/k8sevents.rs:49-71 | one add: a repeat bumps its event where it stands, a new one goes last and the oldest goes out past a thousand |
| `K8sEvents.EventStore.Since` | crates/stormd/src/k8sevents.rs:75-80 | the filtering loop and the sort give the poll that the lemmas are about |
| `K8sEvents.KeptEventsTell` | crates/stormd/src/k8sevents.rs:49-71 | after any adds: at most 1000 kept, no two alike, each numbered and timed by the last add of its like and counting all of them since the one it began with |
| `K8sEvents.AnAddKeepsTheRest` | crates/stormd/src/k8sevents.rs:49-71 | an add is there afterwards, numbered and timed by itself, and every event of another kind is as it was, but for the first of 1000 when a new one comes |
| `K8sEvents.TheFirstBeganFirst` | crates/stormd/src/k8sevents.rs:49-71 | the events kept stand in the order in which they began, so the one dropped began first |
| `K8sEvents.CounterIsTheCounts` | crates/stormd/src/k8sevents.rs:51-55 | the sequence counter is the counts kept and the counts dropped together |
| `K8sEvents.PollIsExact` | crates/stormd/src/k8sevents.rs:75-80 | a poll gives the kept events added or bumped since its number, each once, strictly in the order of the changes, and nothing else |
| `K8sEvents.NextPollTellsTheRest` | crates/stormd/src/k8sevents.rs:73-80 | passing on the last number seen, a poller next gets just the kept events reported in between |
| `Base64.Encode` | crates/stormd/src/shell/text.rs:367-388 | the chunk loop gives the encoding the lemmas are about |
| `Base64.EncodedIsTheBytes` | crates/stormd/src/shell/text.rs:367-388 | an encoding has 4 * ceil(n / 3) characters, its letters spell the bytes as one number and the zero bits that fill the last letter, and only padding follows |
| `Base64.Feed` | crates/stormd/src/shell/text.rs:403-409 | one letter more: the buffer stays below 2^bits, the 32-bit shift loses nothing, and bytes out and bits held still spell the letters in |
| `Base64.Decode` | crates/stormd/src/shell/text.rs:390-412 | the whole bytes of the bit string the letters before the first '=' spell, or an error |
| `Base64.FailsOnABadCharacter` | crates/stormd/src/shell/text.rs:395-402 | decoding fails exactly when a character outside the alphabet stands before the first '=' |
| `Base64.RoundTrip` | crates/stormd/src/shell/text.rs:367-412 | for every byte string, what decoding its encoding gives is that byte string, never an error |
| `GrpcHealth.Varint` | crates/stormd/src/probes.rs:310-319 | the number of at most ten base-128 digits, modulo 2^64, and its size; none when no byte of the first ten ends it |
| `GrpcHealth.PutVarint` | crates/stormd/src/probes.rs:271-277 | the loop appends the encoding |
| `GrpcHealth.VarintRoundTrip` | crates/stormd/src/probes.rs:271-319 | every 64-bit number is read back from its encoding, of at most ten bytes, wherever it stands |
| `GrpcHealth.VarintShape` | crates/stormd/src/probes.rs:310-319 | what is read is one to ten bytes of which every one but the last says that more follow |
| `GrpcHealth.ServingStatus` | crates/stormd/src/probes.rs:281-308 | the frame reader gives the scan the lemma is about |
| `GrpcHealth.ServedIsTheStatus` | crates/stormd/src/probes.rs:281-308 | a status is served if and only if the frame is uncompressed, long enough and holds varint and length-delimited fields, in any encoding of their numbers and the last length-delimited one possibly cut short; it is then their last field 1, or 0 |
| `GrpcHealth.Request` | crates/stormd/src/probes.rs:258-269 | a request is a frame of exactly its length whose one field 1 is the service name, or of none |
| `Reaper.Tracker.Due` | crates/stormd/src/reaper.rs:72-85 | reports just the pids due at this look, and remembers what the history of looks says |
| `Reaper.DueWhenItStayed` | crates/stormd/src/reaper.rs:69-85 | a pid is due exactly when it was there at every look since its last report or absence and those looks span the grace |
| `Reaper.AFreshClock` | crates/stormd/src/reaper.rs:69-73 | a pid that was gone, or reported, is not due before a whole grace since it came back |
| `Glob.GlobMatch` | crates/stormd/src/shell/file.rs:620-658 | the backtracking loops terminate and compute `Matched` |
| `Glob.MatchIsSound` | crates/stormd/src/shell/file.rs:620-658 | a name found splits into pieces that the pattern's characters stand for, one by one |
| `Glob.MatchesItsEffect` | crates/stormd/src/shell/file.rs:625-640 | for every pattern and name the matcher finds what the pattern means with two final stars read as `?*` |
| `Glob.CompleteUnlessTwoStarsEnd` | crates/stormd/src/shell/file.rs:625-640 | every name the pattern means is found if and only if the pattern does not end in two stars |

## Left out

- Supervisor: configuration changes while processes run or stop, removing a process, `start_all`, and waiting for dependencies and node variables.
- Shutdown.ShutdownIsWithinBudget: time spent waiting for locks is not part of the bound, which is of the sleeps.
- Shutdown.OrderIsKeptIff: the others are of every kind `Lives.MayBecome` allows, each process by itself; that a spawn under way ends within some time is not asked of them.
- StopTiers.StopTiers: states no order for cyclic graphs, where the code promises none.
- Restarts.TheLimitIsReached: when a child is marked Running its kill handle replaces that of a child before it, whose monitor then asks that one to stop; the model lets either end first, as an exit or as a stop.
- Restarts.RestartsAreLimited: the configuration is fixed and the clock does not go back; the 32-bit wrap of the restart and crash counters is not modelled.
- Probes.HealthIsOfThisRun: leaves out the API entries and the settle time of `health_of`, which add conditions and take none away.
- Probes.RunsKeep: a stall of an API is any answer that ends the run; when one does is `ApiHealth.StallIsUnbrokenTimeouts`. A pid is not given to a second child before the first child's exit is recorded.
- ApiPublish.RunsKeep: a file's content is the version of the map it was made from; its JSON form is left out.
- ApiHealth.PercentileIsLeast: latencies are naturals; the log lines and the kept history of changes are left out.
- LogFile.ReadBackIsASuffix: an append is all or nothing, renames work, the files on disk are those of this configuration (generations past `max_files` left by an earlier one are not), and `take_file`, which ends a run's file and forgets its failing state, ends the history.
- LogFile.ReaderSeesTheWritersOrder: archived runs, which the reader puts first, are left out, as are queries, pruning and the line format.
- Layers.AssembledIsOverlay: symbolic links, permissions, an entry that changes a file into a directory or back, `.` and `..` components, and tar itself are left out.
- Caches.PairsAreServedWell: whether a pair loads is decided by its two files' contents; the client verifier's cache, which has the same shape, is left out.
- Goldens.AlwaysSoundIff: symbolic links, anything other than goldens at their paths, and the node in `/dev` that a mount reads from are not modelled; `dir` is taken from the root; the updater's pivot, which rebuilds a process's configuration from the original and so forgets a swap, and operations of two tasks on one golden at once are left out; an attach left behind by a failed detach is allowed, as in the code.
- K8sEvents.EventStore.Add: timestamps are what the caller passes; the counters do not wrap.
- Base64.Decode: text is characters rather than bytes; a character outside ASCII is an error either way, its first byte being none of the alphabet.
- GrpcHealth.ServingStatus: lengths are naturals, so an overflowing index is not modelled; HTTP/2 and the meaning of status numbers are left out.
- Reaper.Tracker.Due: the grace is the same at every look, as in the reaper's loop; `/proc` parsing and the reaping itself are left out.
- Glob.GlobMatch: only the matcher; walking the directories is left out.
- Not modelled: cron scheduling, `${NODE_*}` expansion, `dependency_satisfied`, constant-time comparison, HTTP, TLS handshakes, SSH, the web UI and the other shell commands. They are I/O or thin wrappers.
