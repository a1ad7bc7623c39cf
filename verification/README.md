# Zenoss core: state that stays consistent over interleaved steps

This project models the parts of the Zenoss core in which state has to stay consistent over many small, interleaved
steps, and a small query language that is printed, parsed, read back and compiled. It proves properties of every input,
every run and every reachable state. `dafny verify dfyconfig.toml` checks all of it.

## How the model is built

Each imperative part comes three times.

* A **state** module holds the state as a value, one function per event (a tick, a finished run, a closed channel, an
  answer of the hub, one object map), and the runs made of these events.
* A **laws** module holds the invariant, one lemma per event that the event keeps it, and what follows for every run.
* A **class** has the fields the program has, and methods with its loops, branches and in-place updates. Each method
  is proved to change the state exactly as the event function does, so whatever is proved of the events holds of it.

| part | modules |
|---|---|
| the collector scheduler | `SchedulerState`, `SchedulerInvariant`, `SchedulerEffects`, `SchedulerSafety`, `SchedulerProgress`, `SchedulerRemoval`, `LateCompletion`, `SchedulerRows`, `Scheduling`, `KeyedSets` |
| the collector daemon over it | `DaemonState`, `DaemonLaws`, `CollectorDaemons` |
| running statistics | `Statistics` |
| the where-clause language | `PyStrings`, `Quoting`, `LikePatterns`, `WhereGrammar`, `FormClauses`, `FormRoundTrip`, `FormMeaning`, `GroupPatterns`, `RuleColumns`, `RuleTests`, `RuleCompiler`, `PyLiterals`, `PyReader`, `RuleReading`, `RuleMisreadings` |
| relationships and object maps | `ModelData`, `RelationshipState`, `RelationshipLaws`, `RelationshipNames`, `Relationships` |
| the SSH session window | `SshWindowState`, `SshWindowLaws`, `SshClients` |
| the modeler's client slots | `ModelerState`, `ModelerLaws`, `Modelers` |
| the SMTP channel | `SmtpState`, `SmtpLaws`, `AsyncChat`, `SmtpSession`, `SmtpCommands`, `SmtpChannels` |
| availability | `Availability` |

`Wrappers` and `Sequences` hold two result types and the regrouping of sequences.

**Scheduler.** A task object is a row of an object store, and its index is its identity: it outlives the scheduler's
knowledge of its name. The reactor is single threaded and its events come in any order. The executor is a queue of
submitted calls and a set of running ones, a looping call is its `running` flag, a delayed start is an entry of a
multiset. `removedAt` and the counters `ticks`, `submissions`, `parked` and `finished` are history. The assumptions are
those of the task interface: a task name always goes with the same configId (`OneConfigPerName`); a task does not put
itself into one of the scheduler's states while it runs, and completes only as its last action.

A task may ask, when it is scheduled, that the tasks of its config be paused, as the ping tasks of the nmap collector
do; `pauses` says that it does. `KeyedSets` proves of the keyed set what the scheduler relies on, that `has_key` says
whether some member has the key; the scheduler itself holds the cleanup set as a set of rows, and the two are not
connected. That the code removes what `RemoveConfig` describes is the contract of `Scheduler.RemoveTasksForConfig`;
`RemovalIsExact` spells that description out.

**Where clauses.** The grammar works on tokens; quoting and LIKE work on characters. `PyTest` is the Python test a
comparison compiles to, and `Like` is the LIKE predicate of section 8.5 of ISO/IEC 9075:1992 without an escape
character. A rule may have columns of every kind, strings and numbers, and is printed character by character; `PyReader`
reads such a text as Python 2 does, down to the escapes of string literals (section 2.4.1 of the Python 2 Language
Reference). It knows the comparisons toPython prints, strings that are not compared, `and`, `or` and parentheses, spaced
as toPython spaces them, and reads nothing else.

**Relationships.** `World` holds what the code calls but does not define: the constructors that `importClass` finds and
the decoding of collected text. `None` stands for an exception out of a comparison; the caller's transaction is then
lost. Comparing two sorted lists is comparing multisets (`SortedListsAgree` justifies that for every total order).

**SMTP.** `Feed` says what a stream of characters comes to: the terminator of the channel's present state is searched
from the left, again and again. `HandleRead` is asynchat's loop over pieces of input and is proved to reach the same
channel. The transaction of `TransactionDelivers` is what section 4.5.2 of RFC 821 asks a client to send.

## What turned out not to hold

* A task that was removed while it ran and then completes takes the tasks with it that its config reaches, those of its
  own config's next generation among them (`LateCompletionRemoves`), so it is harmless exactly when its config has no
  tasks again (`LateCompletionIsHarmless`); `LateCompletionHappens` is a run.
* Deleting, updating or purging a device removes the tasks of another monitored device exactly when the cascade reaches
  it, and leaves that device in `_devices` without tasks (`DeleteStrips`, `ConfigureStrips`, `PurgeStrips`);
  `MonitoredWithoutTasks` has two runs. A device task that completes does the same to its own device and to those its
  config reaches (`FinishStrips`, `CompletedWithoutTasks`).
* Paused tasks belong to unresponsive devices over a run exactly when no task that pauses its config is added for a
  responsive device (`PausedMeansUnresponsive`), which is what the nmap collector does (`ResponsiveButPaused`); and
  clearing a device resumes such a task for good (`ClearingResumesPlaceholders`).
* The statistics merge starts its minimum at 0xffffffff and its maximum at 0; `MergeIsFeedingAll` says exactly when that
  does no harm.
* A value made only of quotes comes back one quote short (`UnquoteUndoesQuote`); a begins-with value that itself begins
  with a percent sign, or an ends-with value that ends with one, comes back under another mode (`ValueRoundTrip`);
  `not like` compiles correctly only between two percent signs (`NotLikeCompiles`), and a `like` pattern with no percent
  sign at either end compiles to nothing (`LikeCompiles`). A group pattern loses its bar (`GroupPatternIsLoose`), so that only patterns
  between percent signs without one keep their meaning (`StrippingIsRight`). What a printed form selects is what its
  modes say for values without wildcards (`FormSelects`), and a single value is said exactly then (`SayableIsExact`).
* `getValue` escapes nothing: it puts the value between double quotes as it is. Python reads the comparisons a rule was
  printed for exactly when no choice column is compared with `like` and every value is plain, that is, has no double
  quote, no end of a line, and no backslash that is the last character or makes an escape of the next
  (`RuleIsReadBack`, `LiteralIsReadBack`). The rule for `summary = 'say "hi"'` is no Python (`SayHiIsNoPython`), that
  for `'x" or "y'` is true of every event (`XOrYSelectsEverything`, `OrInAValue`), and that for `'C:\temp'` tests for a
  tab and misses the events the clause selects (`CTempIsReadWithATab`, `TabInAValue`). With plain values a rule is no
  Python exactly when a choice column is compared with `like` (`RuleIsPython`, `ChoicesCompile`).
* Applying a relationship map again reports a change for as long as a stale object is locked from deletion
  (`ReconcilingIsIdempotent`). On a locked device an object whose class changed is deleted and not recreated
  (`LockedDeviceLoses`); the abort that follows when no change is reported undoes that exactly when no map changes an
  object of its class and every object has a map (`AbortOnLockedDevice`). The numbers given to repeated ids can meet an
  id that was sent (`RenamingKeepsApart`).
* After a failed open of an SSH channel its session is never given back and the end is never reported by a close
  (`FailureIsForever`); when all sessions went that way the waiting commands stay where they are for good (`StallsWhen`,
  `StallsForever`), and some run of every client with more commands than sessions comes to that (`StallIsReached`). A
  client that was given no command never reports its end (`SilentWithoutCommands`).
* An SMTP message without any line cannot be ended (`EmptyMessageIsNotEnded`).
* Overlapping events are counted twice, so the availability is the truth only for disjoint ones or a window that is all
  downtime (`AvailabilityIsSafe`); with a reversed window the guard answers (`GuardAnswers`).

## Model

| member | source | states |
|---|---|---|
| SchedulerInvariant.AddKeeps | Products/ZenCollector/scheduler.py:378-404 | adding fails exactly when the name is registered; otherwise the invariant of the whole scheduler is kept |
| SchedulerInvariant.CallKeeps | Products/ZenCollector/scheduler.py:161-190 | a tick of a running loop keeps the invariant: one submission at most, every tick counted once |
| SchedulerInvariant.StartIsClean | Products/ZenCollector/scheduler.py:359-376 | a delayed start, also a stale one, starts a loop only for a registered task that was never removed, and only when no task of its configId awaits cleanup |
| SchedulerInvariant.StartKeeps | Products/ZenCollector/scheduler.py:359-376 | a delayed start, fired, postponed or void, keeps the invariant |
| SchedulerInvariant.RunHeadKeeps | Products/ZenUtils/Executor.py:14-65 | beginning the oldest submission keeps the invariant and never exceeds the executor's size |
| SchedulerInvariant.RetireKeeps | Products/ZenCollector/scheduler.py:486-493 | moving registered tasks from the dictionaries to the cleanup set restores the invariant even where one of them is already COMPLETED |
| SchedulerInvariant.RunEndsKeeps | Products/ZenCollector/scheduler.py:207-224 | the end of a run keeps the invariant, save that a registered task may be COMPLETED until it is removed |
| SchedulerInvariant.FinishKeeps | Products/ZenCollector/scheduler.py:207-224 | a finished run, with the removal that follows a completion, keeps the invariant whether or not the task is still registered |
| SchedulerInvariant.PauseKeeps | Products/ZenCollector/scheduler.py:498-512 | pausing and resuming keep the invariant |
| SchedulerInvariant.SweepKeeps | Products/ZenCollector/scheduler.py:661-686 | the sweep keeps the invariant, and takes up exactly what it can: every removed task without an outstanding run is being cleaned afterwards |
| SchedulerInvariant.EndCleanupKeeps | Products/ZenCollector/scheduler.py:688-695 | the end of a cleanup keeps the invariant |
| SchedulerInvariant.StopKeeps | Products/ZenCollector/scheduler.py:284-334 | a shutdown phase keeps the invariant |
| SchedulerInvariant.StepKeeps | Products/ZenCollector/scheduler.py:245-703 | every event of the reactor keeps the invariant |
| SchedulerInvariant.RunKeeps | Products/ZenCollector/scheduler.py:245-703 | so does every run of events, in any order |
| SchedulerEffects.TickSubmits | Products/ZenCollector/scheduler.py:161-190 | a tick of a running loop submits the task exactly when no run of it is outstanding and it is not paused, parks it when it was paused since its last run, and otherwise counts a missed run; nothing else changes |
| SchedulerEffects.ResumedTaskRuns | Products/ZenCollector/scheduler.py:161-190 | a parked task is submitted at the first tick after its config was resumed |
| SchedulerEffects.PausedTaskWaits | Products/ZenCollector/scheduler.py:161-190 | a task whose config was paused is not submitted by its next tick |
| SchedulerEffects.OldestRunsNext | Products/ZenUtils/Executor.py:14-65 | the executor begins the oldest submission, and only that, exactly when there is one and the limit last set allows a run more |
| SchedulerEffects.FinishedTaskIsIdle | Products/ZenCollector/scheduler.py:207-224 | a task whose run ends without completing is idle, its failure is counted, and its next tick submits it unless it is paused |
| SchedulerEffects.AddEnters | Products/ZenCollector/scheduler.py:378-404 | a new task is in every dictionary under its name, with one delayed start to come; if it pauses its config the registered tasks of that config are paused, and no other row changes |
| SchedulerEffects.SweepTakesUp | Products/ZenCollector/scheduler.py:661-686 | a sweep takes up exactly the removed tasks without an outstanding run, as being cleaned or, during shutdown, as shut down |
| SchedulerEffects.CleanupEnds | Products/ZenCollector/scheduler.py:688-695 | the end of a cleanup discards the task for good |
| SchedulerEffects.PhaseStops | Products/ZenCollector/scheduler.py:284-334 | a shutdown phase removes exactly the registered tasks of that phase and those that name none of the three phases; what has no run outstanding is cleaned at once |
| SchedulerEffects.ShutdownStopsAll | Products/ZenCollector/scheduler.py:284-334 | after the three phases no task is registered |
| SchedulerSafety.GenerationsNeverOverlap | Products/ZenCollector/scheduler.py:359-400 | in every reachable state, a task removed before another was added under its configId is never outstanding together with it, and it is through its cleanup once the newer loop was started |
| SchedulerSafety.RemovedWaitsInCleanup | Products/ZenCollector/scheduler.py:461-496 | a removed task stays in the cleanup set while a run of it is outstanding, with its loop stopped |
| SchedulerSafety.OneOutstandingSubmission | Products/ZenCollector/scheduler.py:161-190 | queue and running calls together hold each task at most once |
| SchedulerSafety.NoTaskIsLost | Products/ZenCollector/scheduler.py:359-400 | every registered task either loops or has a delayed start to come |
| SchedulerSafety.BookkeepingBalances | Products/ZenCollector/scheduler.py:129-224 | the dictionaries have equal keys, all with a callback; observers are attached exactly to registered tasks; ticks = submissions + parked + missed; failed <= finished <= total <= submissions, and the difference of submissions and finished is the outstanding run |
| SchedulerSafety.CleaningNeedsRemoval | Products/ZenCollector/scheduler.py:661-703 | a task being cleaned, or through it, was removed, has no run outstanding and no loop |
| SchedulerSafety.FinalIsKept | Products/ZenCollector/scheduler.py:661-703 | no event takes a task out of that, or touches its counters |
| SchedulerSafety.NoRunAfterCleanup | Products/ZenCollector/scheduler.py:661-703 | so after it entered cleanup a task never runs again, over every run |
| SchedulerProgress.PostponedStartProceeds | Products/ZenCollector/scheduler.py:359-376 | a postponed start can proceed: once no removed task of its config has a run outstanding, a sweep and the ends of cleanups lead to the start of the loop |
| LateCompletion.LateCompletionRemoves | Products/ZenCollector/scheduler.py:207-221 | the end of a removed task's run takes out exactly the registered tasks its config reaches, and only if it completes |
| LateCompletion.LateCompletionIsHarmless | Products/ZenCollector/scheduler.py:207-221 | it leaves every registered task alone exactly when it does not complete or its config has no registered tasks |
| LateCompletion.LateCompletionHappens | Products/ZenCollector/scheduler.py:207-221 | a legal run from the empty scheduler at whose end the re-added task is removed by the old one's completion |
| SchedulerRemoval.RemovalIsExact | Products/ZenCollector/scheduler.py:461-496 | what removal of the reachable tasks means task by task: removed, stopped and in the cleanup set; all else, queue and delayed starts included, is unchanged (that the code does it is Scheduler.RemoveTasksForConfig) |
| SchedulerRemoval.RemovalIsIdempotent | Products/ZenCollector/scheduler.py:461-496 | removing twice is removing once |
| SchedulerRemoval.ClosedIsDoomed | Products/ZenCollector/scheduler.py:461-496 | a set of reachable tasks that covers the config and is closed under childIds is the reachable set, cycles included |
| SchedulerRemoval.CascadeStep | Products/ZenCollector/scheduler.py:495-496 | one recursive call, in the state the calls before it left, extends what is removed towards that set |
| SchedulerRemoval.CascadeEnds | Products/ZenCollector/scheduler.py:495-496 | after the last child exactly the reachable tasks of the starting state are removed |
| SchedulerRemoval.RemoveOneMore | Products/ZenCollector/daemon.py:519-522 | removing configs one after the other is removing what is reachable from any of them at the start, whatever the order |
| Scheduling.Scheduler.AddTask | Products/ZenCollector/scheduler.py:378-404 | the dictionaries, the delayed start and the listener of a new task; ValueError and no change when the name is taken |
| Scheduling.Scheduler.CallTask | Products/ZenCollector/scheduler.py:161-190 | the wrapper's call is the tick; it submits the task exactly when no run of it is outstanding and it is not paused |
| Scheduling.Scheduler.StartTask | Products/ZenCollector/scheduler.py:359-376 | the delayed start is the StartTask event and keeps the invariant |
| Scheduling.Scheduler.RunTask | Products/ZenCollector/scheduler.py:192-205 | the executor's turn is the RunHead event |
| Scheduling.Scheduler.Finished | Products/ZenCollector/scheduler.py:207-224 | the end of a run is the FinishRun event, cascade included |
| Scheduling.Scheduler.RemoveTasksForConfig | Products/ZenCollector/scheduler.py:461-496 | the recursive depth-first removal ends, also on cyclic childIds, and removes exactly the reachable tasks |
| Scheduling.Scheduler.StopTasks | Products/ZenCollector/scheduler.py:472-484 | the first loop stops the config's own tasks and notes their names, each once, and their children |
| Scheduling.Scheduler.MoveToCleanup | Products/ZenCollector/scheduler.py:486-493 | the second loop moves the noted tasks, no lookup misses, and the dictionaries shrink when there are any |
| Scheduling.Scheduler.PauseTasksForConfig | Products/ZenCollector/scheduler.py:498-504 | exactly the config's registered tasks are marked as paused |
| Scheduling.Scheduler.ResumeTasksForConfig | Products/ZenCollector/scheduler.py:506-512 | exactly the config's registered tasks are no longer paused |
| Scheduling.Scheduler.CleanupTasks | Products/ZenCollector/scheduler.py:661-686 | the loop is the Sweep event |
| Scheduling.Scheduler.CleanupTaskComplete | Products/ZenCollector/scheduler.py:688-695 | the callback is the CleanupDone event |
| Scheduling.Scheduler.Shutdown | Products/ZenCollector/scheduler.py:284-334 | a phase is the Stop event |
| KeyedSets.KeyedSet.HasKey | Products/ZenUtils/keyedset.py:51-52 | looking a key up in the index says whether some member has that key |
| KeyedSets.KeyedSet.Add | Products/ZenUtils/keyedset.py:97-99 | adds a member and keeps the index in step |
| KeyedSets.KeyedSet.Discard | Products/ZenUtils/keyedset.py:105-107 | discards a member and keeps the index in step |
| DaemonState.UpdateKeeps | Products/ZenCollector/daemon.py:464-492 | updating a config never raises on a taken name, keeps the agreement, and leaves exactly the new tasks registered under the configId, each paused when it or a later one of them pauses its config |
| DaemonState.AddingRaises | Products/ZenCollector/daemon.py:478-482 | adding the tasks of a configuration raises exactly when some name is registered already or comes twice |
| DaemonState.DeleteKeeps | Products/ZenCollector/daemon.py:524-530 | deleting a device keeps the agreement |
| DaemonLaws.DeleteStrips | Products/ZenCollector/daemon.py:524-530 | a device that has tasks has none after the deletion exactly when the deleted device reaches it through childIds; if it was another monitored one it stays monitored |
| DaemonLaws.ConfigureStrips | Products/ZenCollector/daemon.py:464-482 | an update takes the tasks of another device exactly when the updated one was monitored already and reaches it |
| DaemonLaws.PurgeStrips | Products/ZenCollector/daemon.py:512-522 | a purge takes the tasks of a device exactly when some dropped device reaches it |
| DaemonLaws.FinishStrips | Products/ZenCollector/scheduler.py:207-221 | the end of a task's run takes the tasks of a device that has some exactly when the task completes and its config reaches the device, its own device included, and leaves every device monitored |
| DaemonLaws.CompletedWithoutTasks | Products/ZenCollector/scheduler.py:207-221 | a legal run in which the only task of a device completes and the device is monitored without a task |
| DaemonLaws.MonitoredWithoutTasks | Products/ZenCollector/daemon.py:464-530 | two legal runs of a new daemon that end with a monitored device without tasks, one by a deletion and one by an update |
| DaemonState.PurgeKeeps | Products/ZenCollector/daemon.py:512-522 | purging keeps the agreement |
| DaemonState.IssuesKeep | Products/ZenCollector/daemon.py:620-639 | a device-issue step keeps the agreement, and right after it a registered task is paused exactly when its config is reported, or it was paused before without its config being unresponsive |
| DaemonState.ReactorIsQuiet | Products/ZenCollector/scheduler.py:245-703 | no event of the scheduler itself registers, renames, pauses or resumes a task |
| DaemonState.DaemonStepKeeps | Products/ZenCollector/daemon.py:464-639 | every step of daemon or reactor keeps the agreement |
| DaemonState.DaemonAgrees | Products/ZenCollector/daemon.py:464-639 | over every run each registered device task's configId is in the device set, and a paused task's configId is unresponsive or has a task of its generation that pauses it |
| DaemonLaws.PausedMeansUnresponsive | Products/ZenCollector/daemon.py:464-639 | over every run, in each state paused tasks belong to unresponsive devices exactly when no step adds a task that pauses its config while the device is responsive |
| DaemonLaws.PausedStep | Products/ZenCollector/scheduler.py:402-404 | a single step keeps that exactly when it is harmless in this sense |
| DaemonLaws.PausedAfterIssues | Products/ZenCollector/daemon.py:620-639 | right after a device-issue step paused means unresponsive exactly when no config was paused before that is neither unresponsive nor reported |
| DaemonLaws.ResponsiveButPaused | Products/ZenStatus/nmap/NmapPingTask.py:126-129 | monitoring one device whose ping task pauses its config gives a paused task of a responsive device |
| DaemonLaws.ClearingResumesPlaceholders | Products/ZenStatus/PingTask.py:133-141 | after that device was unresponsive and is cleared, its task runs although it asked to be paused |
| DaemonState.UpdateAllKeeps | Products/ZenCollector/daemon.py:494-507 | updating a list of configs succeeds, keeps the agreement and adds exactly their ids |
| DaemonState.PurgingUpdate | Products/ZenCollector/daemon.py:494-522 | an uninterrupted purging update leaves exactly the updated ids as devices, and device tasks of no other config |
| CollectorDaemons.CollectorDaemon.UpdateConfig | Products/ZenCollector/daemon.py:464-492 | the method is the Configure step |
| CollectorDaemons.CollectorDaemon.UpdateDeviceConfigs | Products/ZenCollector/daemon.py:494-510 | the loop with its purge succeeds and leaves exactly the updated ids as devices |
| CollectorDaemons.CollectorDaemon.PurgeOmittedDevices | Products/ZenCollector/daemon.py:512-522 | deleting the omitted devices in any order is the Purge step |
| CollectorDaemons.CollectorDaemon.DeleteDevice | Products/ZenCollector/daemon.py:524-530 | the method is the Delete step |
| CollectorDaemons.CollectorDaemon.ProcessDeviceIssues | Products/ZenCollector/daemon.py:620-639 | resuming the cleared and pausing the reported devices is the DeviceIssues step and keeps the agreement |
| Statistics.FedSums | Products/ZenCollector/scheduler.py:47-50 | after any calls the accumulator holds their number, their sum and the sum of their squares |
| Statistics.FedBounds | Products/ZenCollector/scheduler.py:52-57 | and their least and greatest value, whatever it was reset to |
| Statistics.VarianceIsDeviation | Products/ZenCollector/scheduler.py:70-76 | the numerator under the root is the sum of squared deviations from the mean, hence never negative |
| Statistics.SquaresExceedSquaredSum | Products/ZenCollector/scheduler.py:70-76 | n times the squares minus the squared sum is n times that sum of deviations |
| Statistics.MeanIsBetween | Products/ZenCollector/scheduler.py:66-68 | the mean lies between the least and the greatest value |
| Statistics.FedJoins | Products/ZenCollector/scheduler.py:579-583 | merging two accumulators is feeding one with both lists |
| Statistics.MergeTasks | Products/ZenCollector/scheduler.py:573-583 | the loop over the tasks of a state: its total is that of one accumulator fed all their samples exactly when some sample is at most 0xffffffff and some is at least 0 |
| Statistics.MergeIsFeedingAll | Products/ZenCollector/scheduler.py:573-583 | the merge from a fresh accumulator equals feeding one with all samples exactly when some sample is at most 0xffffffff and some is at least 0 |
| Statistics.StateStatistics.AddCall | Products/ZenCollector/scheduler.py:47-57 | an accumulator that was fed some samples is, afterwards, one fed these and the new one |
| Statistics.StateStatistics.MergeFrom | Products/ZenCollector/scheduler.py:579-583 | merging an accumulator into another, both with samples, gives the accumulator fed the samples of both |
| PyStrings.SplitUndoesJoin | bin/smtpd.py:168-176 | splitting undoes joining when the separator's first character is in no part |
| Quoting.UnquoteUndoesQuote | Products/ZenEvents/WhereClause.py:108-110 | unquoting undoes quoting exactly for the empty value and for values with some character that is not a quote; otherwise one quote is lost |
| Quoting.HalvedDoubled | Products/ZenEvents/WhereClause.py:359-364 | halving doubled quotes over the whole text, a run of quotes at a time, outer quotes included |
| LikePatterns.LikeSuffix | Products/ZenEvents/WhereClause.py:157-160 | for a wildcard-free value, a leading percent sign matches exactly what ends with it |
| LikePatterns.LikePrefix | Products/ZenEvents/WhereClause.py:161-162 | for a wildcard-free value, a trailing percent sign matches exactly what starts with it |
| LikePatterns.LikeInfix | Products/ZenEvents/WhereClause.py:163-164 | between two percent signs it matches exactly what contains it |
| LikePatterns.LikeCompiles | Products/ZenEvents/WhereClause.py:157-164 | the test for `like` agrees with LIKE on every string exactly when a percent sign stands at an end and the rest has no wildcard |
| LikePatterns.NotLikeCompiles | Products/ZenEvents/WhereClause.py:165-166 | the test for `not like` agrees exactly when percent signs stand at both ends and no wildcard between |
| LikePatterns.ComparisonsCompile | Products/ZenEvents/WhereClause.py:167-170 | the tests for = and != agree with the comparison on every string |
| WhereGrammar.ParsesAnd | Products/ZenEvents/WhereClause.py:380-399 | parsing the tokens of a derivation, whatever may follow it, gives its tree: `and` binds looser than `or`, both to the left |
| WhereGrammar.AndIsDerived | Products/ZenEvents/WhereClause.py:380-399 | whatever the parser accepts has a derivation with the tokens it took |
| WhereGrammar.ParserIsTheGrammar | Products/ZenEvents/WhereClause.py:378-399 | the parser returns a tree exactly when some derivation of all the tokens has that tree |
| WhereGrammar.GrammarIsUnambiguous | Products/ZenEvents/WhereClause.py:378-399 | two derivations of the same tokens have the same tree |
| FormClauses.BuildClauseLoop | Products/ZenEvents/WhereClause.py:124-136 | the loop with its early return gives no clause for an empty value, and raises for an unknown mode |
| FormClauses.FromFormVariables | Products/ZenEvents/WhereClause.py:516-527 | the loop over the columns prints every column's clause in parentheses, joined by and |
| FormClauses.SortSorts | Products/ZenEvents/WhereClause.py:440-441 | sorting gives a sorted permutation |
| FormRoundTrip.ValueRoundTrip | Products/ZenEvents/WhereClause.py:142-184 | what buildClause1 quotes, toJS reads back with the same mode and value exactly when the mode can carry the value; otherwise one character is lost |
| FormRoundTrip.ActivePrints | Products/ZenEvents/WhereClause.py:516-527 | exactly the columns with a mode and non-empty values print a clause |
| FormRoundTrip.FormReadsBack | Products/ZenEvents/WhereClause.py:418-441 | every form that prints is parsed, and read back as the sorted list of one triple per value |
| FormRoundTrip.FormRoundTrips | Products/ZenEvents/WhereClause.py:368-441 | these are the form's own name, mode and value exactly when every mode can carry its values |
| FormMeaning.SayableIsExact | Products/ZenEvents/WhereClause.py:102-185 | the comparison printed for a value says of every text what the mode says (contains, begins with, ends with, is, or not) exactly when the value has no wildcard, or under = and != when it is quotable |
| FormMeaning.FormSelects | Products/ZenEvents/WhereClause.py:102-185 | a printed form, parsed, selects exactly the rows in which every column the form asks about matches some value of a positive mode, and no value of a negated one |
| FormMeaning.FormPrints | Products/ZenEvents/WhereClause.py:516-527 | a form prints exactly when each column it asks about has one of the six modes; otherwise TypeError |
| FormMeaning.TriplesInOrder | Products/ZenEvents/WhereClause.py:440 | the triples are sorted by column name, then mode, then value, numbers before strings |
| FormMeaning.ComparisonIsRead | Products/ZenEvents/WhereClause.py:423-438 | a comparison on an unknown column is dropped, one with a number is read back only under = and != |
| FormMeaning.ColumnIsFound | Products/ZenEvents/WhereClause.py:419-420 | a column is found under its name in any case, and of names that differ in case only the last |
| RuleColumns.TextsCompile | Products/ZenEvents/WhereClause.py:157-170 | a comparison of a text or event class column, with any operator and a string or a number, compiles to a faithful test exactly when it is = or != or < with the empty string or a pattern that compiles |
| RuleColumns.ChoicesCompile | Products/ZenEvents/WhereClause.py:216-280 | every comparison of a select, compare or enumerated column, strings and numbers alike, is faithful, and is Python exactly for the comparison operators |
| RuleColumns.GroupPatternIsLoose | Products/ZenEvents/WhereClause.py:235-262 | a group pattern is stripped of its bar, so that a bare group name passes the test without being like the pattern |
| GroupPatterns.StrippingIsRight | Products/ZenEvents/WhereClause.py:235-262 | stripping a group pattern of its marks keeps its meaning exactly when percent signs stand at both ends, no bar is stripped and no wildcard is inside |
| RuleColumns.GroupsCompile | Products/ZenEvents/WhereClause.py:235-262 | a comparison of a group column compiles to a faithful test exactly for these patterns, like or not like, and for < with the empty string |
| RuleColumns.ColumnsCompile | Products/ZenEvents/WhereClause.py:488-503 | by column: a comparison has an operator of Python and a test faithful to today's value (the number of an ntevid, today's number of a priority) exactly when its kind of column allows its operator and value |
| RuleColumns.ColumnsRaise | Products/ZenEvents/WhereClause.py:488-503 | by column: exactly when a comparison raises, and which error |
| RuleColumns.NumbersAreRead | Products/ZenEvents/WhereClause.py:493-499 | the number tested for an ntevid is the one its text stands for, blanks and sign included |
| RuleCompiler.CollapseFlattens | Products/ZenEvents/WhereClause.py:443-464 | collapsing keeps the comparisons in order and leaves no list inside a list of its own operator |
| RuleCompiler.CollapseKeepsMeaning | Products/ZenEvents/WhereClause.py:443-464 | under every assignment of truth values the flattened tree has the truth of the tree |
| RuleCompiler.CollapseInto | Products/ZenEvents/WhereClause.py:448-461 | the recursion that appends to the operand lists appends the collapsed terms |
| RuleCompiler.PrintInto | Products/ZenEvents/WhereClause.py:477-505 | the recursion appends the printed rule, or raises what the first comparison raises |
| RuleCompiler.PrintParts | Products/ZenEvents/WhereClause.py:481-487 | the loop over the operands of a list collects what each prints, or stops at the first that raises |
| RuleReading.ReadsBody | Products/ZenEvents/WhereClause.py:481-487 | a printed list, before any closing context, is read by Python's grammar as the conjunction or disjunction of its parts if all of them are good; otherwise nothing or another comparison is read |
| RuleCompiler.RuleCompiles | Products/ZenEvents/WhereClause.py:488-505 | a rule over known columns is compiled exactly when buildPython, with the special cases of ntevid and priority, raises for none of its comparisons |
| RuleReading.RuleIsReadBack | Products/ZenEvents/WhereClause.py:63-99 | for every rule that is printed: Python reads exactly the comparisons it was printed for, in their order, exactly when all have an operator of Python and a plain value |
| RuleReading.RuleIsPython | Products/ZenEvents/WhereClause.py:472-513 | when all values are plain, what is compiled can be read by Python at all exactly when no comparison is printed with an operator Python does not have |
| RuleReading.RuleKeepsMeaning | Products/ZenEvents/WhereClause.py:472-513 | the text of the rule without its outer parentheses, read character by character with Python's precedence, is the comparisons printed and has the truth of the parsed clause under every assignment, for operators of Python and plain values; strings and numbers, columns of every kind |
| RuleReading.RuleSelectsTheSameEvents | Products/ZenEvents/WhereClause.py:472-513 | a rule selects exactly the events its clause selects, ntevid and priority by today's numbers, when each comparison is one its column compiles (a condition on the clause and the columns) with a plain value |
| RuleReading.LeafTestsItsField | Products/ZenEvents/WhereClause.py:56-61 | a comparison tests the field its column is called today, the column found in any case |
| RuleReading.UnknownRaises | Products/ZenEvents/WhereClause.py:505-513 | a rule that is one comparison on no known column raises IndexError |
| PyLiterals.LiteralIsReadBack | Products/ZenEvents/WhereClause.py:63-68 | a value printed raw between double quotes is read back by Python, whatever follows, exactly when it has no double quote, no end of a line and no backslash that makes an escape |
| RuleTests.TestIsReadBack | Products/ZenEvents/WhereClause.py:70-99 | each printed comparison (endswith, startswith, in, not in, an operator, None) is read as meant, up to what follows, when its operator is Python's and its value plain; otherwise as another comparison or not at all |
| RuleMisreadings.SayHiIsNoPython | Products/ZenEvents/WhereClause.py:63-68 | an equality with `say "hi"` prints a rule Python cannot read |
| RuleMisreadings.OrInAValue | Products/ZenEvents/WhereClause.py:63-68 | a value that closes its literal and goes on with or and a string gives a rule that is true of every event |
| RuleMisreadings.XOrYSelectsEverything | Products/ZenEvents/WhereClause.py:63-68 | so does the value `x" or "y` |
| RuleMisreadings.TabInAValue | Products/ZenEvents/WhereClause.py:63-68 | a value with a backslash and a t gives a rule that tests for a tab in their place, so for another value than the clause |
| RuleMisreadings.CTempIsReadWithATab | Products/ZenEvents/WhereClause.py:63-68 | the rule for `C:\temp` is false of an event with that very value |
| ModelData.SameIsReflexive | Products/DataCollector/ApplyDataMap.py:42-57 | a value is the same as itself exactly when a list that starts with a dictionary holds only rows; otherwise comparing raises |
| ModelData.SameRaises | Products/DataCollector/ApplyDataMap.py:42-57 | the comparison raises exactly for two such lists of which one holds something else |
| ModelData.SameIsAnEquivalence | Products/DataCollector/ApplyDataMap.py:42-57 | on comparable values it is reflexive, symmetric and transitive, across its three ways of comparing |
| ModelData.SameMeans | Products/DataCollector/ApplyDataMap.py:42-57 | two values are the same exactly when they are equal, or lists that hold the same values equally often, or lists of rows that hold the same rows |
| ModelData.HashableMeans | Products/DataCollector/ApplyDataMap.py:50-53 | a row can be compared exactly when no list and no dictionary is inside it |
| ModelData.SortedListsAgree | Products/DataCollector/ApplyDataMap.py:55-55 | sorted lists are equal exactly when they hold the same values equally often, for every total order |
| RelationshipLaws.LoopKeeps | Products/DataCollector/ApplyDataMap.py:247-293 | through the loop the relationship holds the ids not yet met and those met; an object changes only by a map with its id; a locked device gains no id; without a reported change nothing changed |
| RelationshipLaws.FinalIds | Products/DataCollector/ApplyDataMap.py:235-312 | on an unlocked device exactly the maps' ids after renaming are left, and the stale objects locked from deletion, untouched |
| RelationshipLaws.EveryObject | Products/DataCollector/ApplyDataMap.py:235-312 | with distinct new ids each object of the result is known: updated, recreated, created or kept; and nothing else is there |
| RelationshipLaws.AbortLosesNothing | Products/DataCollector/ApplyDataMap.py:224-232 | on an unlocked device the abort after no reported change discards nothing |
| RelationshipLaws.LockedDeviceReports | Products/DataCollector/ApplyDataMap.py:235-312 | on a locked device a change is reported exactly when some map changes the object of its class it is the first to meet, or some object has no map |
| RelationshipLaws.AbortOnLockedDevice | Products/DataCollector/ApplyDataMap.py:224-312 | there what the loop did is what is committed exactly when one of these holds or no object changed its class; for any maps, repeated ids included |
| RelationshipLaws.UpdateSettles | Products/DataCollector/ApplyDataMap.py:315-418 | what one update of an object wrote, a second finds in place and writes nothing |
| RelationshipLaws.UpdateWrites | Products/DataCollector/ApplyDataMap.py:315-418 | an update of an object that is not locked writes the map's value to exactly the attributes the map is about that were not the same up to order; all else stays, and a change is reported exactly when one was written |
| RelationshipLaws.UpdateEstablishes | Products/DataCollector/ApplyDataMap.py:315-418 | so each public, decodable attribute of the map that the object has holds the map's value afterwards, up to order |
| RelationshipLaws.UpdateRaises | Products/DataCollector/ApplyDataMap.py:42-57 | an update raises exactly when two lists that start with dictionaries are compared and one holds something that is no row |
| RelationshipLaws.UnlockedDeviceReports | Products/DataCollector/ApplyDataMap.py:235-312 | on an unlocked device the number counted is that of the objects a map makes, recreates or changes, and a change is reported exactly when there is one or an object has no map |
| RelationshipLaws.LoopSettles | Products/DataCollector/ApplyDataMap.py:247-293 | after the loop every map finds its object as it wants it |
| RelationshipLaws.ReconcilingIsIdempotent | Products/DataCollector/ApplyDataMap.py:235-312 | a second application, of the maps as the loop left them or as the plugin sent them, succeeds, changes no object and counts no object, and it reports a change exactly when a stale object is locked from deletion |
| RelationshipLaws.LockedDeviceLoses | Products/DataCollector/ApplyDataMap.py:269-272 | on a locked device an object that has a map is lost exactly when its class changed |
| RelationshipNames.RenamingKeepsApart | Products/DataCollector/ApplyDataMap.py:250-253 | the new ids are distinct exactly when no id that was sent is another's id with the number of one of its repetitions |
| RelationshipNames.DistinctIdsAreKept | Products/DataCollector/ApplyDataMap.py:250-253 | the ids stay as they are exactly when they were distinct |
| RelationshipNames.SuffixIsInjective | Products/DataCollector/ApplyDataMap.py:253-253 | an id with a number determines both |
| Relationships.Reconciler.UpdateObject | Products/DataCollector/ApplyDataMap.py:315-418 | the loop over the attributes, in whatever order, writes exactly those that differ, counts the object once, and leaves each attribute the map is about with the map's value up to order |
| Relationships.Reconciler.CreateRelObject | Products/DataCollector/ApplyDataMap.py:421-468 | creates and updates the object, updates one that is there, or does nothing on a locked device |
| Relationships.Reconciler.Apply | Products/DataCollector/ApplyDataMap.py:254-281 | what one map does: update, recreate or create |
| Relationships.Reconciler.DeleteStale | Products/DataCollector/ApplyDataMap.py:295-310 | the final loop deletes exactly the unlocked stale objects, and every lookup succeeds |
| Relationships.Reconciler.UpdateRelationship | Products/DataCollector/ApplyDataMap.py:235-312 | the loops together: result, objects, renamed maps and the number of changed objects |
| SshWindowLaws.OpenedKeeps | Products/DataCollector/SshClient.py:728-735 | giving channels to waiting commands keeps order and counts, within the window |
| SshWindowLaws.ClosesKeeps | Products/DataCollector/SshClient.py:669-679 | a close, with its result and the next command, keeps the invariant |
| SshWindowLaws.OpenFailsKeeps | Products/DataCollector/SshClient.py:588-603 | a failed open keeps the invariant with one failed channel more, whose session stays taken |
| SshWindowLaws.StepKeeps | Products/DataCollector/SshClient.py:683-782 | every event keeps it: first in first out, one session per open or failed channel and at most the limit, every answer collected under its plugin, a full window while commands wait |
| SshWindowLaws.RunKeeps | Products/DataCollector/SshClient.py:683-782 | so does every run |
| SshWindowLaws.NothingIsLost | Products/DataCollector/CollectorClient.py:120-172 | over every run the commands are those waiting, open, completed and failed, as often as given, and the started ones are the first given |
| SshWindowLaws.FinishedMeans | Products/DataCollector/CollectorClient.py:168-172 | all results are there exactly when nothing waits, nothing is open and nothing failed |
| SshWindowLaws.CloseReports | Products/DataCollector/SshClient.py:738-752 | a close reports the end exactly when it was the last open channel, nothing waits and nothing failed |
| SshWindowLaws.FinishesOnce | Products/DataCollector/SshClient.py:738-752 | without failures the number of closes to the end is the number of results missing, and the end is reported once |
| SshWindowLaws.WholeSession | Products/DataCollector/SshClient.py:725-765 | a new client whose service starts and whose channels all close has every result and reports its end once, with the last close |
| SshWindowLaws.CloseAnswers | Products/DataCollector/CollectorClient.py:120-172 | in every run a close adds one result, the data it came with, for the last plugin with that command, and for none when no plugin has it |
| SshWindowLaws.OpenFailReports | Products/DataCollector/SshClient.py:588-603 | a failed open is reported and changes nothing but its channel |
| SshWindowLaws.StallsWhen | Products/DataCollector/SshClient.py:725-752 | nothing but new commands can come to a connected session with waiting commands exactly when every session went to a failed open |
| SshWindowLaws.StallsForever | Products/DataCollector/SshClient.py:725-752 | and then no run opens a channel again, and what waits goes on waiting |
| SshWindowLaws.SilentWithoutCommands | Products/DataCollector/SshClient.py:738-752 | over every run a client that was given no command has all its results and never reports its end |
| SshWindowLaws.StallIsReached | Products/DataCollector/SshClient.py:588-603 | every client with more commands than sessions has a run that comes to stand still so |
| SshWindowLaws.FailureIsForever | Products/DataCollector/SshClient.py:588-603 | after a failed open all results are never there again, in any run |
| SshClients.SshClient.constructor | Products/DataCollector/SshClient.py:688-716 | a fresh client: the commands of its plugins in order, all of them waiting |
| SshClients.SshClient.RunCommands | Products/DataCollector/SshClient.py:728-735 | the loop opens as many channels as there is room for, in order |
| SshClients.SshClient.ServiceStarted | Products/DataCollector/SshClient.py:755-764 | the method is the ServiceStarted event |
| SshClients.SshClient.AddCommand | Products/DataCollector/SshClient.py:767-782 | the method is the AddCommands event |
| SshClients.SshClient.Closed | Products/DataCollector/SshClient.py:669-679 | the method is the Closes event |
| ModelerLaws.NextTakesTheFirst | Products/DataCollector/zenmodeler.py:809-823 | next() of the nested iterators takes the first of what is left, and stops exactly when nothing is |
| ModelerLaws.PeekingKeeps | Products/DataCollector/zenmodeler.py:809-823 | looking for a device finds one exactly when one is left, and loses none |
| ModelerLaws.FillKeeps | Products/DataCollector/zenmodeler.py:852-887 | filling keeps the invariant, and leaves a free slot only while the hub is being asked or when no device is left |
| ModelerLaws.FinishKeeps | Products/DataCollector/zenmodeler.py:719-725 | a finish, also a repeated or late one, keeps the invariant |
| ModelerLaws.TimeOutKeeps | Products/DataCollector/zenmodeler.py:1005-1024 | timing clients out keeps the invariant |
| ModelerLaws.TimeOutTakes | Products/DataCollector/zenmodeler.py:1005-1024 | the timer takes out exactly the running clients whose deadline is past, and marks them as timed out |
| ModelerLaws.RunKeeps | Products/DataCollector/zenmodeler.py:296-1135 | every run of events keeps the invariant |
| ModelerLaws.EachClientFinishesOnce | Products/DataCollector/zenmodeler.py:704-727 | over every run each added client is running or has finished, never both, and finished at most once |
| ModelerLaws.ReportsAddUp | Products/DataCollector/zenmodeler.py:826-850 | the reported, the finished and the running clients add up to those ever added, and so do the timed-out ones |
| ModelerLaws.DevicesInOrder | Products/DataCollector/zenmodeler.py:852-887 | devices are requested in the order of the list, each once, and the rest is still to come |
| ModelerLaws.SlotsAreBounded | Products/DataCollector/zenmodeler.py:852-887 | never more clients than the parallel option and four |
| ModelerLaws.BoundIsReached | Products/DataCollector/zenmodeler.py:296-313 | for every positive number of slots some run reaches that bound |
| ModelerLaws.ReportsAreFinal | Products/DataCollector/zenmodeler.py:826-850 | a cycle is reported only when all its devices were requested and every client is done |
| ModelerLaws.EndsAreReported | Products/DataCollector/zenmodeler.py:826-850 | after a device list, a client's answer, a finish, a tick of the timer or a check, no cycle that is at its end is left unreported |
| ModelerLaws.SlotsAreFilled | Products/DataCollector/zenmodeler.py:852-887 | after a device list, a finish or a tick a slot is free only while the hub is asked or when no device is left |
| ModelerLaws.CyclesStart | Products/DataCollector/zenmodeler.py:1096-1111 | a cycle starts, and asks for a device list, exactly when no client runs |
| Modelers.ZenModeler.DevicegenHasItems | Products/DataCollector/zenmodeler.py:809-823 | finds a device exactly when one is left, and what is left stays what it was |
| Modelers.ZenModeler.CheckStop | Products/DataCollector/zenmodeler.py:826-850 | reports and resets only when nothing is pending, running or left |
| Modelers.ZenModeler.FillCollectionSlots | Products/DataCollector/zenmodeler.py:852-887 | the generator up to its yield or its end is the Fill of the model |
| Modelers.ZenModeler.CollectDevice | Products/DataCollector/zenmodeler.py:296-313 | the clients of one device are added one by one, each with the next number |
| Modelers.ZenModeler.ConfigArrives | Products/DataCollector/zenmodeler.py:863-880 | the generator after its yield: the device's clients, then the check |
| Modelers.ZenModeler.ProcessClientFinished | Products/DataCollector/zenmodeler.py:704-727 | the callback is the ClientFinishes event |
| Modelers.ZenModeler.TimeoutClients | Products/DataCollector/zenmodeler.py:1005-1024 | the loop sorts the clients into active and finished by their deadline |
| Modelers.ZenModeler.TimeoutTick | Products/DataCollector/zenmodeler.py:1027-1039 | the timer is the TimeoutTick event |
| Modelers.ZenModeler.DeviceListArrives | Products/DataCollector/zenmodeler.py:1096-1121 | the main loop with its device list is the DeviceList event |
| SmtpLaws.EndIsAtTheEnd | bin/smtpd.py:264-273 | in a dot-stuffed message the first end of data is the one that ends it, whatever follows |
| SmtpLaws.DecodedBody | bin/smtpd.py:168-176 | the text recovered from a dot-stuffed message is its lines joined by newlines |
| SmtpLaws.Transparency | bin/smtpd.py:168-176 | the lines come back exactly when there is at least one |
| SmtpLaws.EmptyMessageIsNotEnded | bin/smtpd.py:264-273 | a dot and a line break do not end a message without lines |
| SmtpLaws.FeedInPieces | lib/python2.7/asynchat.py:107-171 | feeding a stream in two pieces, the rest of the first in front of the second, is feeding it whole |
| SmtpLaws.MailKeeps | bin/smtpd.py:227-238 | MAIL keeps the invariant; a sender is taken once, and only a non-empty one |
| SmtpLaws.RcptKeeps | bin/smtpd.py:240-251 | RCPT keeps the invariant; a recipient is added only after a sender, and only a non-empty one |
| SmtpLaws.DataNeedsRecipients | bin/smtpd.py:264-273 | DATA is accepted exactly with recipients and no argument, and then there is a sender |
| SmtpLaws.FeedAlike | bin/smtpd.py:143-273 | two channels in the same place of the same transaction make the same of any stream: the same messages, the same rest |
| SmtpLaws.RsetStartsOver | bin/smtpd.py:253-262 | after RSET a channel delivers of any stream exactly what a new channel would, and keeps its greeting |
| SmtpCommands.RsetLineStartsOver | bin/smtpd.py:253-262 | after a line RSET, in any case, a channel delivers of what follows exactly what a new channel would |
| SmtpCommands.RsetLine | bin/smtpd.py:253-262 | the line RSET forgets sender and recipients; with an argument it is refused with 501 |
| SmtpCommands.NoopLine | bin/smtpd.py:202-206 | the line NOOP changes nothing |
| SmtpCommands.QuitLine | bin/smtpd.py:208-211 | the line QUIT closes the channel, whatever is said with it |
| SmtpCommands.HeloLine | bin/smtpd.py:192-200 | the line HELO notes its argument once; 501 without one, 503 the second time |
| SmtpCommands.MailLineNames | bin/smtpd.py:227-238 | a MAIL line takes the sender it names, in brackets or not, once; 503 the second time |
| SmtpCommands.MailLineNamesNobody | bin/smtpd.py:227-238 | a MAIL line that names nobody is refused with 501 |
| SmtpCommands.RcptLineNames | bin/smtpd.py:240-251 | a RCPT line adds the recipient it names; 503 without a sender |
| SmtpCommands.RcptLineNamesNobody | bin/smtpd.py:240-251 | a RCPT line that names nobody is refused, with 503 before a sender and 501 after |
| SmtpCommands.DataLine | bin/smtpd.py:264-273 | the line DATA is refused with 503 without recipients, with 501 with an argument, and else opens the message |
| SmtpCommands.OtherLine | bin/smtpd.py:151-164 | any other command is refused with 502 |
| SmtpCommands.EmptyLine | bin/smtpd.py:147-150 | an empty line is refused with 500 |
| SmtpCommands.AddressForms | bin/smtpd.py:214-225 | the address alone or in brackets, with or without a blank behind the colon, names the same; empty brackets name themselves |
| SmtpLaws.FoundKeeps | bin/smtpd.py:143-189 | no line leads to state DATA without recipients, or to recipients without a sender; a message is delivered exactly from state DATA |
| SmtpLaws.FeedKeeps | bin/smtpd.py:227-273 | whatever a client sends, a message is delivered only with a sender and at least one recipient, none of them empty |
| AsyncChat.FindPast | lib/python2.7/asynchat.py:140-154 | the first terminator in the buffer is the first in all that came, collected input included |
| AsyncChat.CollectingIsSafe | lib/python2.7/asynchat.py:155-171 | collecting all but the longest prefix of a terminator at the end never hides a terminator that comes in two pieces |
| SmtpSession.TransactionDelivers | bin/smtpd.py:143-273 | a transaction in an idle channel delivers one message with the sender, the recipients in order and exactly the lines sent, is accepted step by step, and leaves the channel idle |
| SmtpSession.FeedAllIsFeed | lib/python2.7/asynchat.py:107-171 | any number of pieces comes to the same as the whole stream |
| SmtpSession.MailGetsThrough | bin/smtpd.py:143-273 | however a transaction is cut into pieces, the server gets the one message that was sent, and the replies are those of its acceptance |
| SmtpChannels.SmtpChannel.HandleRead | lib/python2.7/asynchat.py:107-171 | after each piece of input the channel and what is pending are those of the whole stream |
| SmtpChannels.SmtpChannel.KeepPrefix | lib/python2.7/asynchat.py:160-171 | what is collected and what is kept is what was there |
| SmtpChannels.SmtpChannel.TakeFound | lib/python2.7/asynchat.py:148-154 | the collected line is handled and the buffer goes on behind the terminator |
| SmtpChannels.FindPrefixAtEnd | lib/python2.7/asynchat.py:310-314 | the loop finds the longest proper prefix of the terminator that the buffer ends with |
| SmtpChannels.SmtpChannel.FoundTerminator | bin/smtpd.py:143-189 | the method is the Found of the model and keeps its invariant |
| SmtpChannels.SmtpChannel.TextOf | bin/smtpd.py:168-176 | the loop over the lines takes off one leading dot |
| Availability.Accumulate | Products/ZenEvents/Availability.py:287-306 | the loop's dictionary holds the clipped downtime of every device of the report, and of no other device any |
| Availability.Report | Products/ZenEvents/Availability.py:308-317 | one availability for each device of the report |
| Availability.CoveredIs | Products/ZenEvents/Availability.py:287-306 | the covered milliseconds are those of the window in some event of the device |
| Availability.CoveredIsDown | Products/ZenEvents/Availability.py:287-306 | they are those at which some event of the device had begun that is open or was closed later |
| Availability.DowntimeCounts | Products/ZenEvents/Availability.py:287-306 | the sum is at least the covered time, and equals it exactly when no two events of the device overlap in the window |
| Availability.AvailabilityIsSafe | Products/ZenEvents/Availability.py:95-99 | availability lies between 0 and the truth; it is the truth exactly when the events are disjoint or cover the whole window |
| Availability.GuardAnswers | Products/ZenEvents/Availability.py:95-97 | with an empty window the device is available, with a reversed one exactly when no event counts |

## Left out

- Scheduler: task objects are rows of one store, so two names of one Python object are not told apart; the intervals of
  loops and their changes, the random start delays and the wall clock are left out, and a delayed start may come due at
  any time, a tick at any time while the loop runs. `taskDone` callbacks are opaque and do not call back into the
  scheduler; `scheduled` does nothing but pause the task's config, which is all the repository's tasks do with it.
- Scheduling.Scheduler.Shutdown: the order given by `stopOrder` is left out: within a phase the loops are stopped in any
  order, which makes no difference to the state reached.
- Scheduling.Scheduler.RunTask: the executor is a first-in first-out queue with a limit; how a submitted call is
  retried or reported to its deferred is not modelled.
- Statistics: real arithmetic without rounding; the bookkeeping of `stateStartTime` is left out.
- CollectorDaemon: thresholds, config proxies, listeners and the hub are left out; a task splitter gives a config's tasks
  the config's own configId, and distinct names.
- FormClauses: the lexing of clauses is left out, and with it names that do not lex as one VAR token and quoted text that
  the string tokens do not accept; case folding is that of ASCII letters; forms are over `Text` columns, so forms over
  `Select`, `Compare`, `Enumerated`, `EventClass` and `DeviceGroup` columns are not modelled.
- RuleReading.RuleKeepsMeaning: for comparisons of known columns with a string or a number; comparisons on unknown
  columns are dropped by the code, which can leave an empty list, and a comparison whose value is itself an expression
  prints that value's tuple. Today's names of the columns are names of Python (`Named`), and values have characters
  that are bytes of the rule's encoding.
- RuleReading.RuleIsPython: for plain values; of other values `RuleIsReadBack` says when the rule is read as it was
  meant, not when the text happens to be some other Python.
- PyReader: only what is described above; adjacent strings, chained comparisons, other spacing and other expressions are
  not read.
- RuleColumns: the fields of an event hold strings or numbers; today's numbers of the old syslog priorities are a
  parameter, because the protocol definitions they come from are not part of this model.
- Relationships: linking a `ZenModelRM`, setter and getter attributes, constructors that take the object map instead of an
  id, a missing relationship, events, indexing and change logging are left out; `_p_changed` is false after a commit. A
  constructor keeps the id it is given, and the id among a map's attributes is the object's own. Values of a map are
  not `modelerLock`. The ids of the relationship are walked in any order.
- RelationshipLaws.ReconcilingIsIdempotent: for maps whose new ids are distinct, with values that can be compared with
  themselves and constructors that give an unlocked instance of the class asked for.
- SshClients: authentication, the transport, timeouts, `reinitialize` and the closing of a lost connection are left out; a
  channel closes or fails to open once.
- Modelers: what a client collects and how its maps are applied is left out; time is the argument of the timer. `clients`
  and `finished` hold client numbers.
- SmtpChannels: sockets, the proxies and Mailman delivery are left out; the server's `process_message` answers with no
  status; replies are their codes; reading goes on after QUIT until the peer stops sending.
- Availability: the event queries are left out, and their conditions on events become `Queried`; device records without
  an identifier, rounding of the report's dates and the severity filter are left out; records are not sorted.
