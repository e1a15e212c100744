# Verification of lmapd

This project models lmapd, the measurement agent daemon of simet-lmapd, and proves what its
scheduler, its queues, its file formats and its timers promise.

The scheduler is modelled twice. `Model` gives every operation of `src/runner.c` as a function
on values; `Runner` holds the schedules, actions and suppressions as linked records that are
updated in place, and each of its methods is proved to change the records as the function says.
A run is any sequence of events and deaths. The results of fork (a failure, or a pid that no
unreaped child has), the relation computed by fnmatch, the clock and the order in which children
die are arbitrary. What the runner does to the outside world is recorded in a log, and the
theorems about processes, results and counters are statements about the log and the state of
every run.

- `Invariants`, `SuppressionCounts`, `Accounting`, `Termination`: what every reachable state
  satisfies, the counters, and the end of the cleanup loop.
- `Tasks`, `Firing`, `Suppressions`, `Signals`, `Records`: what one step does, stated outright: which
  program an action runs, what a start launches and records, when a suppression is ACTIVE, who is
  signalled, and what a death records.
- `Protocol`, `Isolation`, `Succession`: the order of operations in the log, what one step may do,
  and when a sequential schedule goes on.
- `Queue`, `Recovery`, `Workspace`, `Dataflow`, `Restart`: directories as maps from names to
  entries, the crash-safe move of the incoming queue and the runs after a crash, the loops over
  directories, the files behind the log, and what a new session does to waiting results.
- `Spoiling`: exactly when a workspace is cleaned while a process is at work in it.
- `Theorems`, `Examples`, `Stopped`, `Overcounted`: the main results about the scheduler, and runs
  that show what they leave room for.
- `StopLeaf`: the leaf that makes a suppression stop what is running.
- `Csv`, `CsvStream`, `Decimal`, `Meta`: the record format and the meta files.
- `Names`: safe directory and file names.
- `Rand`, `Periodic`, `Bits`, `Calendar`, `Daemon`: random spreads, periodic and calendar
  events, and the reload loop.

`dafny verify dfyconfig.toml` checks the whole project.

Where the code and its documentation differ the model follows the code:

- A reaped action becomes ENABLED even if a suppression is in force (`src/runner.c:610`).
- An action stopped through its own tags becomes SUPPRESSED while its process lives
  (`src/runner.c:488-493`); its schedule may then be concluded under it, and its workspace cleaned
  (`Spoiling.CleanedUnderProcess`).
- The flag that stops a schedule is never cleared (`src/runner.c:468-470`), so a sequential schedule
  stops after its first action even when no suppression is in force any more, although the comment
  asks for that only while it is suppressed (`src/runner.c:655-660`, `Succession.GoesOnExactly`).
- A suppression stops what is running when its leaf is present, whatever its value
  (`src/data.c:1115-1126`, `StopLeaf.StopsAgainstValue`).
- A run can be counted as a failure twice (`src/runner.c:719-725`, `Overcounted`).
- The input queue is cleaned when some action has last status 0, not when none failed
  (`src/runner.c:687`), although the comment before it (`src/runner.c:681-682`) says otherwise
  (`Isolation.ConcludeCleansQueue`).
- The final round of moves links into the own schedule a second time (`src/runner.c:704-712`),
  and results for the own schedule go to its active queue in every mode, not only in sequential
  schedules (`README.simet-lmap.md:56-59`).
- The one-off test is inverted (`src/runner.c:1111`, `Periodic.OneOffSession`).
- The calendar match ignores the timezone offset of the event (`src/data.c:1540-1602`,
  `Calendar.OffsetHarmless`).
- The setter of the random spread stores a value before it rejects it (`src/data.c:1353-1357`).
- The restart flag survives a failure of the event loop (`src/lmapd.c:433-438`), and startup events
  are skipped only after a restart (`Daemon.StartupExactly`).
- `remove_all` reports success although the callback could not remove an entry
  (`src/workspace.c:117-147`, `Workspace.RemovalNotReported`).

## Model

| member | source | states |
|---|---|---|
| `Invariants.Reachable` | src/runner.c:225-290 | In every state of every run: live pids are distinct unreaped children; a RUNNING action has a process and an owner that is RUNNING or DISABLED; a RUNNING schedule has a live action; a deferred action has no process but its schedule has one and is RUNNING or DISABLED; a sequential schedule has at most one live action, with no waiting results at or behind it. |
| `Invariants.StepKeeps` | src/runner.c:741-852 | One firing of an event, or one reaped child, keeps that invariant from any state that has it. |
| `Invariants.ReapKeeps` | src/runner.c:588-726 | One iteration of the cleanup loop keeps the invariant although it may fork the successor. |
| `Theorems.SequentialExclusion` | src/runner.c:369-380 | A sequential schedule never has two live processes, and it is RUNNING or DISABLED while it has one. |
| `Theorems.LaunchOrder` | src/runner.c:655-670 | The launches of one sequential run are a prefix of the action list: the first directly after the invocation, each other one directly after its predecessor was reaped; a new run starts only after the last launched process was reaped. |
| `Theorems.NoWedge` | src/runner.c:279-290 | Every RUNNING action and every RUNNING schedule waits for a process that is still to be reaped. |
| `Theorems.PidIndex` | src/runner.c:112-148 | Looking up a live pid finds exactly the action it belongs to, and that action's own schedule. |
| `Theorems.RunsOnFreshQueue` | src/runner.c:772-784 | Every invocation comes after a take-over of the incoming queue that is later than the previous invocation. |
| `Firing.SequentialStart` | src/runner.c:346-380 | For every state with the invariant and every firing that is the start event of a sequential schedule which is ENABLED once the suppressions have been told: the step takes over the queue, cleans every workspace and counts the invocation, in this order; it launches the first action if and only if that is ready and fork works at that point, and launches nothing else of the schedule; state, times, counters and the cycle number afterwards are given outright. |
| `Firing.ParallelStart` | src/runner.c:381-392 | The same for a parallel schedule: each action has been launched, which it was ready for, or passed over with at most a counter changed; where fork works every ready action is live afterwards; the schedule is RUNNING exactly if something was launched, DISABLED after a one-shot event. |
| `Firing.PipelinedStart` | src/runner.c:393-397 | A pipelined schedule takes over its queue, cleans, launches nothing, counts nothing and is DISABLED. |
| `Firing.NoStart` | src/runner.c:752-768 | Any other firing launches nothing of the schedule and logs nothing about it but signals; it counts a suppression or an overlap exactly for the start event of a SUPPRESSED or RUNNING schedule. |
| `Firing.ExecReturns` | src/runner.c:174-290 | What action_exec returns: 0 exactly for an action that is not meant to run, 1 exactly for one that is ready when fork works, -1 otherwise. |
| `Firing.OnlyWhatMayRun` | src/runner.c:192-272 | In every run an action is launched only if it is named, has a workspace, and names a task whose program is a capability, with arguments that fit. |
| `Theorems.ParallelRunsAll` | src/runner.c:381-392 | When fork does not fail, a parallel start runs every action that is enabled, idle and permitted, and makes the schedule RUNNING if there is one. |
| `Succession.SuccessorExactly` | src/runner.c:655-671 | From any state with the invariant, the death of an action starts an action if and only if the schedule is sequential, was never told to stop, has a next action that is enabled, idle and permitted with arguments that fit, and fork works; and then it starts just that one. The test for SUPPRESSED plays no part. |
| `Succession.SequentialRunsAll` | src/runner.c:655-671 | When nobody tells it to stop, fork works and its actions are ready, a sequential schedule is run through: each death, whatever its status, brings the next action of the list, each of them invoked exactly once. |
| `Theorems.CycleGrid` | src/runner.c:776-782 | The cycle number is the greatest multiple of the interval that is not after now. |
| `Theorems.NoOrphans` | src/runner.c:684-717 | Results that wait for delivery belong to a RUNNING or DISABLED schedule that still has an unreaped process, so neither a start nor a state change can strand them. |
| `Theorems.CleanedWhenSettled` | src/runner.c:645-717 | When a workspace is cleaned, its action is idle, or its process has ended and every move it owes has been made, or a process is at work in it; the last case is the one that Spoiling treats. |
| `Spoiling.CleanedUnderProcess` | src/runner.c:684-717 | In every run, a workspace is cleaned while its process is at work if and only if some input is the death of another process of the schedule, at a moment when no further action of that schedule is RUNNING and the action of the workspace has a process. |
| `Spoiling.DeathSpoils` | src/runner.c:684-717 | The same for one step: reaping a child cleans the workspace of a live action of its schedule if and only if no action but the reaped one is RUNNING. |
| `Spoiling.FireSpoilsNone` | src/runner.c:361-365 | A start cleans the workspace of a live process only if that has happened to the workspace before. |
| `Spoiling.NeverCleanedUnderProcess` | src/runner.c:457-497 | It never happens in a sequential schedule, nor in a schedule for which every suppression that stops one of its actions through the tags of the action also matches the schedule, whatever the rest of the configuration is. |
| `Examples.CleanedAtWork` | src/runner.c:488-493 | A concrete configuration and three inputs after which the workspace of a live process has been cleaned; the third input is of the kind just described. |
| `Records.DeathRecords` | src/runner.c:595-726 | For every state with the invariant and the death of every live process: the exit code, or the negated signal, is logged and recorded with its time, and a failure counted unless it is 0; results wait exactly if it is 0, some destination names another schedule and the run goes on; the run is over if and only if nothing else is RUNNING and no successor is started; then RUNNING ends as the suppressions say, no results wait, and the queue is cleaned if some action has last status 0, a failure counted otherwise. All other fields are as they were. |
| `Records.StrangerDies` | src/runner.c:595-604 | The death of a child that is no process of an action changes nothing but the set of children. |
| `Protocol.ActionTracked` | src/runner.c:609-623 | For every action, at the end of every run: invocations are the launches in the log, completions plus one for a live process; failures are the nonzero statuses reaped; the pid is the one launched last and the last status the one reaped last. |
| `Theorems.DeliveredAtTheEnd` | src/runner.c:684-712 | Whatever the step is: results leave a schedule for another one only in a step that reaps a child of the schedule they leave, and after which no action of that schedule is RUNNING. |
| `Isolation.FireMovesNone` | src/runner.c:741-801 | An event moves no results, cleans no input queue and collects no process. |
| `Theorems.ExactlyOnce` | src/runner.c:645-717 | For every process that has ended, in every run at whose end no process of its schedule is alive, DISABLED schedules included: its workspace has been cleaned since, and before that its files were moved to each other destination exactly once, to nowhere after a failure, and to the own schedule once, or twice when there is also another destination; each move took the files as the process left them. |
| `Theorems.AddressedExactly` | src/runner.c:645-653 | The schedules that results go to are those that are the first of their name among the schedules, for some name in the list of destinations. |
| `Theorems.FileArrives` | src/workspace.c:514-579 | For every process that ended with 0, in every run at whose end its schedule is at rest, and every other schedule that one of its destinations names: there was exactly one move to it, and after that move each regular file that is neither private nor hidden is in the incoming folder, unless a call failed for it or its name was taken. |
| `Theorems.SnapshotIsolation` | src/runner.c:764-784 | In a step taken while a schedule is RUNNING or DISABLED, its active queue gains files only from its own actions that have it as destination; a one-shot schedule is DISABLED while its processes run. |
| `Protocol.ReachableSound` | src/runner.c:588-726 | On the log of every run the automaton of each action and of each sequential run is unbroken and agrees with pid, flags and counters. |
| `Dataflow.Delivery` | src/runner.c:645-717 | In every history of file operations and process writes that is compatible with the log, for every death: either there is a first cleaning of the workspace after it, the moves until then are exactly those owed, and each links every movable file as it was at the death; or the results wait, the own schedule has them, and their schedule has a live process. |
| `Dataflow.WaitingResults` | src/runner.c:632-653 | As long as the workspace of a dead process has not been cleaned, the process succeeded, some destination is another schedule, and a process of its schedule is alive: nothing waits for ever in a schedule at rest. |
| `Restart.CleanedBeforeMoved` | src/runner.c:361-365 | In every session, the workspace of an action is cleaned before anything is moved out of it. |
| `Restart.WaitingIsLost` | src/lmapd.c:415-438 | A session ends and the next one begins on the files it left: for every process that had ended, its results were handed over in full, or they wait, untouched, no other schedule has them, and the new session moves nothing out of that workspace before it has cleaned it. |
| `Dataflow.OwedCount` | src/runner.c:704-712 | How often each destination is owed, as a number, for distinct destinations: the second link into the own schedule comes from the final round, which does not skip it. |
| `Dataflow.WorkFrozen` | src/runner.c:632-653 | From the death of a process to the cleaning, nobody changes its workspace. |
| `Dataflow.ActiveGains` | src/workspace.c:535-575 | An active queue gains a file only through the queue move, from its own incoming folder, or from the workspace of one of its own actions. |
| `Dataflow.DirectoriesStay` | src/workspace.c:266-303 | The incoming folder and the action workspaces, being directories in the workspace of a schedule, survive every operation. |
| `Signals.EndSignals` | src/runner.c:796-799 | For every firing and every schedule: what the visit of the schedule logs is first what its start logs, without a signal, and then, if the event ends the schedule, exactly the signals for its named RUNNING actions with a process, in list order; these are the actions as the step leaves them, so those just started are among them; otherwise no signal. |
| `Signals.SuppressionSignals` | src/runner.c:457-497 | One suppression and one event: a start logs exactly these signals, schedule by schedule in list order: none in a DISABLED one, all RUNNING actions of one that has been told to stop now or before, and otherwise those that match and are to be stopped; an end logs none. |
| `Signals.FireSignals` | src/runner.c:401-497 | A firing signals a pid if and only if it belongs to a named RUNNING action that a suppression started by the event stops, which is decided from the state before the event alone, or to one that is RUNNING after the event in a schedule that the event ends. |
| `Signals.QuelledExactly` | src/runner.c:488-493 | A RUNNING action is no longer RUNNING after the suppressions of an event if and only if one that starts stops it by its own tags before any has told its schedule to stop. |
| `Signals.DeathSignals` | src/runner.c:588-726 | The death of a process signals nobody. |
| `Isolation.SignalsHitChildren` | src/runner.c:401-438 | Every signal goes to a process that an action of the configuration runs in and that has not been reaped. |
| `Isolation.NoTakeOverWhileBusy` | src/runner.c:752-784 | A schedule that is RUNNING or DISABLED does not take over its incoming queue. |
| `Succession.StopFlagExactly` | src/runner.c:457-470 | In every run the stop flag of a schedule is set if and only if some earlier event started a suppression that stops and matches the schedule, which was not DISABLED then. |
| `Succession.GoesOnExactly` | src/runner.c:655-671 | In every run, when an action dies whose successor could be started: it is started if and only if no earlier input told the schedule to stop, however long ago; this is what the comment in the code asks for if and only if the flag is clear or a suppression of the schedule is in force. |
| `Stopped.SuccessorNotLaunched` | src/runner.c:655-671 | A run of six inputs: the schedule is told to stop, the suppression ends, the schedule is started again, its second action is ready and fork would work, and the death of the first action does not start it. |
| `Isolation.StopForGood` | src/runner.c:468-470 | The half of Succession.GoesOnExactly that concerns all inputs, not only deaths: once a sequential schedule has been told to stop, only its first action is ever launched again, whatever happens. |
| `StopLeaf.StopsExactly` | src/data.c:1115-1126 | After any calls of the setter the suppression stops what is running if and only if some word was accepted, and the value is that of the last accepted word. |
| `StopLeaf.StopsAgainstValue` | src/data.c:1115-1126 | It stops what is running although the leaf is false if and only if the last accepted word is false. |
| `StopLeaf.Supp.SetStopRunning` | src/data.c:1115-1126 | Value and flag change together, and only for an accepted word. |
| `Isolation.ConcludeCleansQueue` | src/runner.c:682-725 | The end of a run cleans the input queue if and only if some action has last status 0, no matter how the others ended. |
| `Examples.CleanedAfterFailure` | src/runner.c:682-723 | A run in which one action fails and the other does not: the input queue is cleaned all the same. |
| `Invariants.SuppressUpToFacts` | src/runner.c:457-497 | A starting suppression acts on each schedule by itself: what becomes of its state, stop flag, counter and actions depends on nothing else, DISABLED ones are untouched, and no process changes. |
| `Invariants.ReleaseUpToFacts` | src/runner.c:519-553 | An ending suppression acts on each schedule by itself and leaves processes, flags and the log alone. |
| `Invariants.CollectFacts` | src/runner.c:609-653 | Collecting a process changes one action only: pid, state, times, statuses, failures, and the deferral flag exactly when it succeeded and some destination is another schedule. |
| `Invariants.ConcludeFacts` | src/runner.c:689-725 | Concluding a schedule resets all deferral flags, settles RUNNING by the suppression counter, counts a failure exactly when no action has last status 0, and changes nothing else but the log; what it does to the input queue is in Isolation.ConcludeCleansQueue. |
| `Suppressions.SuppressionExactly` | src/runner.c:836-845 | For every state with the invariant and every input: a named suppression that matches something is ACTIVE after an event if and only if it was, or was ENABLED with this start event, and this is not its end event; a DISABLED or unnamed one is DISABLED; nothing else changes it. Whether it stops anything plays no part. |
| `Suppressions.ActiveExactly` | src/runner.c:836-845 | In every run a suppression loaded ENABLED is ACTIVE if and only if some event has started it and neither that event nor any later one has ended it. |
| `Suppressions.StartsExactly` | src/runner.c:752-784 | In every run, an event starts a schedule if and only if it is its start event, the schedule is neither RUNNING nor DISABLED, and no suppression that is ACTIVE after the event matches it, by fnmatch of pattern and tag. |
| `Suppressions.SuppressedExactly` | src/runner.c:457-556 | In every run, a schedule that is neither RUNNING nor DISABLED is ENABLED if and only if no ACTIVE suppression matches it. |
| `SuppressionCounts.ReachableCounted` | src/runner.c:440-556 | In every reachable state the counter of a schedule that is not DISABLED is the number of ACTIVE suppressions that match it, ENABLED means 0 and SUPPRESSED more than 0; likewise for its actions, for which only SUPPRESSED is decided by the counter. |
| `SuppressionCounts.GuardsNotNeeded` | src/runner.c:524-548 | In every reachable state and for every event, when suppress_cb comes to the end of an ACTIVE suppression, after the earlier ones in its list have acted, the counters it is about to decrement are positive. |
| `SuppressionCounts.ReapedEnabled` | src/runner.c:609-610 | In every run, a reaped action is left ENABLED with suppressions in force if and only if some were in force as its process died. |
| `SuppressionCounts.StepMisleads` | src/runner.c:741-852 | No other step does that: an action is ENABLED with a positive counter after a step only if it was so before, or if the step reaped it with a positive counter. |
| `SuppressionCounts.MisledExactly` | src/runner.c:609-610 | In every run, an action is at some time ENABLED with a positive counter if and only if its process died at some time while its counter was positive. |
| `Examples.EnabledUnderSuppression` | src/runner.c:609-610 | A run of three inputs that leaves an action ENABLED with a positive counter. |
| `Accounting.FiringsConserved` | src/runner.c:752-784 | Firings of the start event seen by a schedule that is not DISABLED equal invocations plus suppressions plus overlaps (section 4.2 of RFC 8194), in every mode; only the firing that disables a pipelined schedule is not counted. |
| `Accounting.FailuresBounded` | src/runner.c:719-725 | Failed runs plus a run in progress are at most the invocations: in every sequential or pipelined schedule, and in every parallel one whose actions no suppression stops without also matching the schedule. |
| `Overcounted.FailuresExceedInvocations` | src/runner.c:488-493 | A run of seven inputs with two invocations and three failures: an action stopped through its own tags makes one run end twice. |
| `Accounting.DisabledStays` | src/runner.c:752-755 | DISABLED is absorbing, and a DISABLED schedule counts nothing. |
| `Accounting.OneShotOnce` | src/runner.c:785-789 | A schedule started by one-off, immediate or startup events is invoked at most once per loaded configuration. |
| `Termination.ReapDecreases` | src/runner.c:588-671 | Each reaped child strictly decreases the distances of live actions to the end of their lists plus the number of unknown children. |
| `Termination.CleanupBounded` | src/runner.c:588-593 | One call reaps no more children than that measure, in whatever order they die. |
| `Tasks.FindTaskExactly` | src/data.c:383-399 | The search returns the first task of the nonempty name asked for, and nothing if and only if no task has it. |
| `Tasks.TaskExactly` | src/runner.c:192-272 | action_exec goes on with an action if and only if it names a task that has a program which is a capability; its arguments fit if and only if no option of the task, then of the action, is met when 252 arguments have been collected. |
| `Runner.Runner.ActionExec` | src/runner.c:167-290 | Started, suppressed, overlapping, refused or failed to fork: the new state of the linked records and the return code. |
| `Runner.Runner.BuildArgv` | src/runner.c:232-272 | The vector is the program, the arguments of the task and those of the action, in order, and empty behind them, every write being in bounds; it is given up if and only if some option is met when 252 arguments have been collected. |
| `Runner.Runner.ScheduleExec` | src/runner.c:346-399 | The records change as the function on values says, whose effect Firing.SequentialStart, Firing.ParallelStart and Firing.PipelinedStart state outright. |
| `Runner.Runner.ScheduleKill` | src/runner.c:424-438 | The records change as the function on values says, whose effect Signals.EndSignals states outright. |
| `Runner.Runner.SuppressionStart` | src/runner.c:440-500 | The effect of a starting suppression on all schedules and actions, with the signals that Signals.SuppressionSignals lists. |
| `Runner.Runner.SuppressionEnd` | src/runner.c:502-556 | The effect of an ending suppression on all schedules and actions. |
| `Runner.Runner.FireEvent` | src/runner.c:866-881 | An event updates the records as one step of the transition system: suppressions first, then schedules; what such a step does is stated by Firing, Suppressions and Signals. |
| `Runner.Runner.FindActionByPid` | src/runner.c:112-129 | The nested search returns the first action with that pid. |
| `Runner.Runner.FindScheduleByPid` | src/runner.c:131-148 | The nested search returns the owner of what the other search returns. |
| `Runner.Runner.Survey` | src/runner.c:682-688 | The two accumulated flags: some action is RUNNING; some action has last status 0. |
| `Runner.Runner.Reap` | src/runner.c:595-726 | One reaped child updates the records as one step of the transition system. |
| `Runner.Runner.Cleanup` | src/runner.c:569-728 | The loop over waitpid ends, its result is the run of the deaths it collected, and there are no more of them than the measure. |
| `Queue.Store.Move` | src/workspace.c:319-426 | Whatever fails, every state after a single call is safe (nothing active is lost, a meta file in active has its own data there, each pair is complete in incoming or in active); a pair that would not be picked again is complete in active; the whole sequence of calls is that of the names in order, up to one that stops the scan, with as many failures as counted; without failures, and unless a meta name is taken whose data name is free, the outcome is the one that Queue.TargetExactly describes. |
| `Queue.Store.MovePair` | src/workspace.c:382-411 | The calls for one pair, one by one: link data, link meta, unlink meta, unlink data; a failing meta link takes the data link back and stops the scan; an entry whose data is already active is left alone. |
| `Queue.TargetExactly` | src/workspace.c:364-411 | An undisturbed move takes to active exactly the files of the visible names X.meta and X.data that are both regular files, where no X.data is active; everything else stays, and nothing is replaced. |
| `Queue.SafeMeansReadable` | src/workspace.c:387-399 | After a crash at any of those states every meta file in active has its data file, if that held before the move. |
| `Recovery.DeliveredAfterCrash` | src/workspace.c:382-411 | Wherever the daemon dies in a move: the run after the next move has a pair if and only if the crash did not come between its two links, the run after that one has it if and only if the crash came between the links or after them and before the source was dropped; so every pair is processed, late in the first case and twice in the second, and nothing of it is left to be moved. |
| `Recovery.MovesUndisturbed` | src/workspace.c:382-411 | If every active meta file had its data before the crash, neither of the two moves meets a meta name that is taken while the data name is free. |
| `Queue.MetaNames` | src/workspace.c:364-379 | The name test picks exactly visible names with that suffix, and the computed data name replaces it. |
| `Queue.PairsDisjoint` | src/workspace.c:366-379 | No file belongs to two queue entries. |
| `Workspace.Dir.ScheduleClean` | src/workspace.c:266-303 | For any set of failing calls and any order of the listing: exactly the names that begin with an underscore, directories and the names for which stat or unlink fails remain; success is reported if and only if no unlink failed, a failing stat being passed over. |
| `Workspace.Dir.ActionClean` | src/workspace.c:445-485 | For any set of failing calls: exactly the names that begin with an underscore and the names that could not be removed remain, directories being removed too; success is reported if and only if nftw itself never failed. |
| `Workspace.RemovalNotReported` | src/workspace.c:117-147 | A directory in which an entry stays although success is reported, because the callback passes over what it cannot remove. |
| `Workspace.Dir.ActionMove` | src/workspace.c:543-578 | For any set of failing calls: exactly the movable files whose names are free and for which stat and link work are linked, changing neither the source nor existing entries; success is reported if and only if every movable file that stat found was linked. |
| `Csv.RoundTrip` | src/csv.c:116-251 | A written list of key/value pairs is read back as that list, then the end, if and only if every string is nonempty, has no line feed and does not begin with a quote; the quoting is that of section 2 of RFC 4180. |
| `Csv.FieldExactly` | src/csv.c:48-80 | A field is quoted if and only if it holds the delimiter, a quote, a blank or one of the five control characters from tab to carriage return. |
| `Csv.DoubledExactly` | src/csv.c:66-76 | Inside the quotes every character is written by itself: a quote as two, any other one as it is. |
| `Csv.RecordExactly` | src/csv.c:116-125 | A record is the key, the delimiter, the value and a line feed. |
| `Csv.FieldReads` | src/csv.c:128-205 | One field reads back; a quoted one swallows a following line feed, a plain one leaves it. |
| `Csv.BlanksSkipped` | src/csv.c:127-205 | Line feeds, delimiters and blanks before a key make no difference to the pair that is read. |
| `Csv.ScanRepresentable` | src/csv.c:143-186 | The reader never returns any other string. |
| `CsvStream.Stream.Append` | src/csv.c:48-80 | The writer emits the quoted or plain form of the field. |
| `CsvStream.Stream.AppendKeyValue` | src/csv.c:116-125 | One record, or nothing when a string is absent. |
| `CsvStream.Stream.Next` | src/csv.c:127-205 | The character loop with its growing buffer: every write is in bounds and the result, position and end indicator are those of the scan. |
| `CsvStream.Stream.NextKeyValue` | src/csv.c:207-251 | Skips empty lines and fields up to a key, then reads one value; nothing after the end. |
| `Meta.RoundTrip` | src/workspace.c:644-736 | Reading the meta file returns schedule, action, task, options, tags, times, cycle number and status as written, options kept by first id and tags by first occurrence. |
| `Meta.OptionsComeBack` | src/data.c:329-351 | All options of task and action come back in order if and only if their ids are distinct across both lists. |
| `Meta.FirstOccurrences` | src/data.c:286-317 | The tags read are the same tags, each once, in the order of their first occurrence. |
| `Meta.AddStart` | src/workspace.c:644-706 | The loops write the records of the start in order. |
| `Meta.AddEnd` | src/workspace.c:708-736 | The end time and the status are appended. |
| `Meta.ReadResult` | src/workspace.c:840-923 | The reading loop with its current option computes the fold of all records. |
| `Meta.ReaderIgnores` | src/workspace.c:868-911 | The reader passes over unknown keys, empty identifiers, numbers that do not parse, keys without a value, and names and values of no option. |
| `Meta.FileOfOneRun` | src/workspace.c:644-736 | The records of one concrete meta file, key by key. |
| `Decimal.UnsignedReads` | src/data.c:164-179 | A printed number is read back if and only if it fits 32 bits. |
| `Decimal.SignedReads` | src/data.c:147-162 | A printed status is read back if and only if it fits 32 bits with sign. |
| `Decimal.Prefixes` | src/data.c:147-162 | A blank, a plus sign or a zero before the digits makes no difference. |
| `Decimal.NumberExamples` | src/data.c:147-179 | Some numbers as they are written, and some texts that are read as a number or refused; the empty text is 0. |
| `Names.MkSafe` | src/workspace.c:68-102 | Every write and the terminating zero are in the buffer of 255 bytes; the result encodes the longest prefix that the two limits admit. |
| `Names.LeftInverse` | src/workspace.c:87-99 | Decoding gives the name back if and only if the encoding has at most 253 bytes, or 254 with an unescaped last byte. |
| `Names.FirstByte` | src/workspace.c:87-89 | A nonempty name never becomes private or hidden. |
| `Names.SafeBytes` | src/workspace.c:86-98 | A safe name holds letters, digits, dash, dot, comma, underscore and percent only: no slash and no zero byte. |
| `Names.SafeVerbatim` | src/workspace.c:86-98 | A name of letters and digits, with dash, dot, comma and underscore behind the first byte, is its own safe name up to 254 bytes. |
| `Names.Escapes` | src/workspace.c:90-96 | Any other byte is a percent sign and two upper-case hexadecimal digits, the higher one first. |
| `Names.DirectoriesDistinct` | src/workspace.c:606-638 | All schedule, action and incoming directories are different, for distinct names that fit. |
| `Names.SafeExactly` | src/workspace.c:86-98 | Two names share a directory if and only if their parts before the point where the loop gives up are equal. |
| `Names.LongNamesCollide` | src/workspace.c:90-98 | Two names of 255 letters that share a directory. |
| `Names.AddName` | src/data.c:521-545 | The list add keeps names distinct by refusing a duplicate. |
| `Names.JoinedExactly` | src/workspace.c:746-750 | When the first schedule part is the shorter one, two joined names are equal if and only if the longer schedule part continues with a dash and a middle part, which the other action part begins with. |
| `Names.FileNameExamples` | src/workspace.c:746-768 | The parts of two result file names: time, schedule and action with dashes between them, and the suffix. |
| `Names.FileNamesExactly` | src/workspace.c:746-750 | Two pairs of nonempty names give the same joined name if and only if the names are equal as far as they fit, or one schedule name is the other one, a dash and a nonempty middle part while the action names shift accordingly, neither the middle part nor the remaining action name beginning with a special character. |
| `Names.ResultFilesExactly` | src/workspace.c:764-768 | Two result files have the same name if and only if kind and time are equal and their names are confused in that sense. |
| `Names.FileNamesCollide` | src/workspace.c:746-750 | Two different actions with the same result file name: the joining dash is itself a safe character. |
| `Rand.RandInterval` | src/runner.c:83-99 | The first accepted draw decides, and the result is in the interval. |
| `Rand.Uniform` | src/runner.c:86-99 | Every value of the interval comes from the same number of draws, the integral quotient of RAND_MAX and the number of values. |
| `Rand.DrawsInOrder` | src/runner.c:98-99 | A greater draw never gives a smaller value. |
| `Rand.MostlyAccepted` | src/runner.c:86-97 | At least half of all draws are accepted. |
| `Rand.CanEnd` | src/runner.c:86-97 | The loop can end if and only if the interval is smaller than RAND_MAX. |
| `Rand.SpreadBounded` | src/data.c:1348-1363 | After any calls of the setter, a spread in use is below the bound if and only if the last call was accepted or none ever was. |
| `Rand.RejectedSpreadStays` | src/data.c:1353-1357 | A rejected value after an accepted one stays in use. |
| `Periodic.FirstTrigger` | src/runner.c:1088-1095 | The first trigger is the least grid point after now, or the start when that is to come. |
| `Periodic.Timers.TriggerCb` | src/runner.c:883-908 | Ended: the trigger is freed and nothing armed; otherwise a fire is armed unless one is pending. |
| `Periodic.Timers.Step` | src/runner.c:964-969 | Serving the timer that is due: the start and each trigger arm the next trigger and a fire delayed by the draw, or nothing after the end; a fire that is due is served before a trigger; and this keeps triggers one interval apart, one fire each before the next trigger, no pending timer ever met. |
| `Periodic.Run` | src/runner.c:45-59 | Every run: triggers on the grid of the first, none after the end; triggers and fires take turns, each fire at its trigger plus its draw, and this goes on until the next trigger would be after the end; fires strictly increase, and the pending branch is never taken. |
| `Periodic.OneOffSession` | src/runner.c:1110-1117 | A session with any wake-up times: a one-off event fires if and only if its time had come when the session was armed and its spread passes within the session, and then once; an event that is still to come never fires, however long the session lasts; so a long session does what the configuration asks for only if armed at the very second. |
| `Periodic.OneOffTimer.WakeUp` | src/runner.c:866-881 | The timer that is due is served once and then cleared. |
| `Calendar.MatchesByName` | src/data.c:1540-1602 | For every broken-down time: an event matches if and only if each leaf holds the wildcard or the component, months from january for 0 and days of the week from sunday for 0 by name, the others as a numeral of the number, second 60 by the wildcard alone. |
| `Calendar.AcceptedExactly` | src/data.c:1377-1526 | The setters take exactly the wildcard, the names of the months and of the days, and numbers from 1 to 31, 0 to 23 and 0 to 59. |
| `Calendar.MatchRefines` | src/data.c:1540-1602 | An event matches a broken-down time exactly when each accumulated list holds the wildcard or names the component. |
| `Calendar.ExplicitIsNotWild` | src/data.c:1377-1526 | The word is the wildcard mask if and only if a wildcard was added. |
| `Calendar.AddAllRepresents` | src/data.c:1377-1526 | After any entries, accepted or not, the word is all ones after a wildcard and otherwise exactly the accepted values. |
| `Calendar.LeapSecond` | src/data.c:1593-1597 | A leap second is matched if and only if the seconds hold the wildcard and any other second of its minute is matched. |
| `Calendar.RenderParse` | src/json-io.c:1971-2130 | Parsing the rendered list gives the same word. |
| `Calendar.RenderExactly` | src/json-io.c:1971-2130 | What is rendered: nothing for the empty word, the wildcard for the full one, otherwise the names or numbers of exactly the values in the word, each once and in ascending order. |
| `Calendar.ZoneExactly` | src/data.c:198-229 | The accepted offsets are Z for 0 and exactly the texts of a sign, two digits below 24, a colon and two digits below 60, with that many minutes. |
| `Calendar.ZoneRoundTrip` | src/json-io.c:2730-2738 | A rendered offset is parsed back if and only if it is less than a day. |
| `Calendar.ZoneExamples` | src/json-io.c:2730-2738 | Some offsets as they are parsed and rendered. |
| `Calendar.CalendarEvent.AddMonth` | src/data.c:1377-1414 | The table search sets the bit of the month, all bits for the wildcard, nothing for another word. |
| `Calendar.CalendarEvent.AddDayOfMonth` | src/data.c:1417-1434 | A number from 1 to 31 sets its bit. |
| `Calendar.CalendarEvent.AddHour` | src/data.c:1471-1488 | A number from 0 to 23 sets its bit. |
| `Calendar.CalendarEvent.Match` | src/data.c:1540-1602 | The chain of early exits decides the match, which Calendar.MatchesByName describes by names, from the six words and the local time, whatever the timezone offset of the event is. |
| `Calendar.CalendarEvent.SetTimezoneOffset` | src/data.c:1528-1538 | The setter takes exactly the offsets that the parser accepts, records that one was set, and changes nothing else. |
| `Calendar.OffsetHarmless` | src/data.c:1540-1602 | Matching with the local offset gives the same answer as matching with the offset of the event, for all events and all times, if and only if the two offsets are equal. |
| `Calendar.RenderLeaf` | src/json-io.c:2106-2130 | The loop over bit positions renders nothing, the wildcard, or the values in order. |
| `Daemon.StepDone` | src/runner.c:790-792 | A step sets the startup flag exactly when a startup event begins an ENABLED schedule, and nothing clears it. |
| `Daemon.RestartExactly` | src/lmapd.c:415-438 | In every sequence of sessions, another one takes place if and only if some session ended by lmapd_restart and only failures of the event loop came after it. |
| `Daemon.SkipExactly` | src/runner.c:1213-1224 | In every sequence of sessions, startup events are skipped if and only if some earlier session ended by lmapd_restart after a startup event had begun a schedule. |
| `Daemon.StartupExactly` | src/runner.c:1119-1124 | If a session has run a startup event, and they were not skipped before it, then the session to come may fire one again if and only if no session since then ended by lmapd_restart. |
| `Daemon.StartupOnce` | src/runner.c:1213-1224 | Once a startup event has begun a schedule, no session after the next restart fires a startup event. |
| `Daemon.FailureRepeatsStartup` | src/lmapd.c:415-438 | Three sessions in which the startup event runs twice: the session that ran it ended by a failure of the event loop, with the restart flag still set. |
| `Daemon.Loop` | src/lmapd.c:415-438 | The sessions that take place are those the flags admit, and the loop stops at the first one that leaves the restart flag clear. |

## Left out

- libevent, signal handling, exec, setpgid, the pid file, daemonising and file descriptors: environment calls. A signal has no effect in the model but a later death.
- The signals sent to all actions when a session stops or restarts: they end the session, and its processes appear in the next one as children that belong to no action.
- JSON and XML trees beyond the calendar and timezone leaves, `lmapctl`, logging and status output.
- localtime, strptime, mktime and strftime: the calendar match starts from a broken-down time, and the cycle number is written as an opaque text.
- Allocation failures, truncation at PATH_MAX and the wrap-around of 32-bit counters.
- The wipe of the whole queue, disk usage, and the controller events, which the runner does not implement.
- Tables in result data: row boundaries are lost after a quoted last field, so only the key/value form is treated.
- A schedule without a workspace directory: every named schedule is taken to have one, as `lmapd_workspace_init` sets it.
- The contents of files in the dataflow: a file is its inode, and a link keeps it.
- Directories that cannot be opened: the three loops of `Workspace.Dir` then do nothing.
- Names.ResultFilesExactly: takes the name as a string of bytes; a name longer than the file system allows makes the call fail.
- File systems that change under the daemon by hands other than its own processes.
- Periodic.Run: takes an ideal clock that serves every timer when it is due; a late event loop is not modelled.
