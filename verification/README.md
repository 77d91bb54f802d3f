# HelenOS CI: build scheduler, builders and test-run helpers

This project models the core of the HelenOS continuous-integration scripts in
Dafny and proves properties of that model.

- **The build scheduler** (`BuildScheduler`, `TaskWrapper`, `TaskController`).
  A task is submitted with an id, dependencies and mutexes. Queued tasks are
  started or skipped by a queue processor once their dependencies have
  finished. At most `max_workers` tasks run at a time, and two tasks holding
  the same mutex never run together. `done` waits until the queue has drained.
  The threads become an atomic-step state machine (`Scheduler`,
  `SchedulerInvariants`, `SchedulerLifecycle`). Each section the source runs
  under `self.guard` is one step: submit, dispatch, release, terminate and
  processor exit. A worker adds two steps of its own. Begin reads the
  dependency data, or looks for the skip reason, when the worker starts.
  Finish writes status and data with `set_status` and `set_done`, under the
  wrapper's own lock. The task body runs between the two with no lock held.
- **The scheduling tasks**:
  - harbour discovery, sorting, fetch and build scheduling of coastline
    (`Coastline`);
  - profile discovery and HelenOS builds, including the extra builds with
    harbours (`HelenOS`);
  - the test list and test scheduling and the test run itself (`Testing`);
  - the sycek style checker (`Sycek`).

  These produce the list of `submit` calls they make (`Submission`).
  `Submissions.SubmitAll` feeds such a list to the scheduler model.
- **The test-side helpers**:
  - the scrolling-terminal tracker (`ScrollTerm`);
  - the VM manager and the terminal history of a VM controller (`VmControl`);
  - the scenario tasks boot, command and cls (`ScenarioTasks`);
  - the msim and QEMU controllers: configuration rewriting, command lines and
    typing keys (`Msim`, `Qemu`).

Helper modules:

- `Wrappers`: `Option`/`Result`.
- `Seqs`: filtering, `remove`, `sorted`.
- `Strings`: strip, split, join, replace and number formatting with ASCII
  whitespace.
- `Dicts`: insertion-ordered Python dicts.
- `Names`: the task-id formats.
- `Tasks`: the values that flow between tasks, `Task.execute` and the
  `TaskController` helpers.

External effects are parameters of the model:

- what a command prints and its exit code;
- the directory listings;
- the parsed YAML document;
- `fnmatch`;
- what the capture callback returns;
- the body of a task's `run`.

A Python exception becomes an `Err`/`Raised` value carrying its message (for
the interpreter's own `TypeError` and `KeyError`, a fixed stand-in; see
"## Left out").

## Model

| member | source | states |
|---|---|---|
| Tasks.Execute | hbuild/scheduler.py:54-83 | A task that ran succeeds exactly when `run()` returned something other than False (or 0). Success keeps the returned value as its data, reading None as the empty dict. A raise or a returned False fails it with empty data; the reason is the exception's message or "run() returned False". |
| Tasks.BuildContext | hbuild/scheduler.py:409-414 | The data dict handed to a task has every dependency id, each bound to that dependency's data, and nothing else, with no id twice. |
| Tasks.BuildContextOrder | hbuild/scheduler.py:409-414 | The dict lists the dependencies in the order of their first occurrence in the dependency list; entries already present keep their place. |
| Tasks.GetData | hbuild/scheduler.py:128-132 | `get_data(key)` walks the dependencies in dict order. The first one whose data has the key decides: its value is returned, or, when `key in data` / `data[key]` fails on that data (a string or list containing it, None, a number), a TypeError is raised. It raises "WARN: unknown key" exactly when no dependency has the key. |
| Tasks.GetDependencyData | hbuild/scheduler.py:123-126 | Without a key it is `get_data(dep)`. With a key it returns that entry of the named dependency's dict exactly when the dependency is present with dict data holding the key. A missing dependency or a missing entry raises KeyError, and data that is not a dict raises TypeError. |
| Tasks.RunCommand | hbuild/scheduler.py:134-163 | A command with a non-zero exit code raises "`cmd' failed: <last line>". A command that returns never reports `failed`. |
| Tasks.RunCommands | hbuild/scheduler.py:134-163 | Commands run one after another succeed exactly when every one exits with 0. Otherwise the run raises the message of the first failing command. |
| Tasks.Ret | hbuild/scheduler.py:216-232 | `ret` builds a dict with exactly `status` and `data`. `data` holds the keyword arguments. `status` is 'ok' with no argument or True, 'fail' for False, and otherwise the single argument. |
| Tasks.RetNeverFails | hbuild/scheduler.py:216-232 | Returning what `ret` builds never fails a task, not even `ret(False)`: the task succeeds and the dict becomes its data. |
| Tasks.AppendLine | hbuild/scheduler.py:179-183 | The log tail ends with the new line and keeps at most ten lines, dropping the oldest. |
| Tasks.LogTailKeepsLastLines | hbuild/scheduler.py:179-183 | After any sequence of appends the tail is exactly the last ten lines written. |
| Scheduler.FirstUnknown | hbuild/scheduler.py:362-364 | Finds the first dependency that is not registered. There is none exactly when all are registered. |
| Scheduler.InsertLoopPosition | hbuild/scheduler.py:375-385 | A task with mutexes is inserted right before the first queued task without mutexes, or at the end, and the other queued ids keep their order. |
| Scheduler.Submit | hbuild/scheduler.py:358-389 | `submit` raises "Dependency d is not known." for the first unregistered dependency, exactly when one exists. Otherwise it registers a fresh wrapper under the id, replacing an older one. A task without mutexes is appended to the queue; one with mutexes is inserted before the first queued task without mutexes. Nothing else changes. |
| Scheduler.WalkDeps | hbuild/scheduler.py:554-560 | The dependency loop of the scan waits at the first unfinished dependency. It skips at the first finished dependency that is not 'ok'. It passes exactly when every dependency completed 'ok'. |
| Scheduler.ScanFrom | hbuild/scheduler.py:552-567 | The scan from a queue position finds the first entry that can be run or skipped, and finds none only when no entry from there on qualifies. |
| Scheduler.GetFirstReadyIsFirst | hbuild/scheduler.py:543-567 | `get_first_ready_task_id_` returns the first queued task that can run (dependencies 'ok', mutexes free) or must be skipped, with which of the two. It returns nothing only when no queued task qualifies. |
| Scheduler.SetAll | hbuild/scheduler.py:536-538 | Exactly the listed mutexes get the new flag; every other entry keeps its value or stays absent. |
| Scheduler.StartTask | hbuild/scheduler.py:523-541 | Starting the selected task takes one queue entry and one worker slot. It hands the job to the executor and marks its mutexes held only when it is to be run. The registry is unchanged. |
| Scheduler.Dispatch | hbuild/scheduler.py:496-541 | The queue processor starts a task exactly when it has not exited, a worker slot is free and some queued task can be run or skipped; otherwise it waits. |
| Scheduler.DispatchRemovesSelected | hbuild/scheduler.py:516-541 | The dispatched task is the one the scan selected. Only that queue entry leaves, the rest keep their order, and the task is run exactly when the scan found it ready rather than skippable. |
| Scheduler.SkipReasonLoop | hbuild/scheduler.py:443-447 | The skip reason names the last dependency, in dependency order, that finished other than 'ok'. It stays unbound when there is none. |
| Scheduler.Begin | hbuild/scheduler.py:408-414 | When a worker starts it reads its input and changes nothing else. The registry is only read. A task it runs reads dependency data, and a skipped one reads the skip loop's reason, bound or not. |
| Scheduler.JobOutcome | hbuild/scheduler.py:416-447 | The outcome depends only on what the worker read at its start. Dependency data always gives an outcome, 'ok' or 'fail'. A skip reason gives 'skip' with empty data. A skip without a bound reason dies exactly then. |
| Scheduler.BeginDecidesOutcome | hbuild/scheduler.py:408-452 | The outcome is decided by the registry at the worker's start. A runnable job's outcome is `Execute` of the task body on the dependency data it read then. A skipped job gets status 'skip', empty data and the reason naming the last dependency that had failed by then. It dies on its unbound `reason` exactly when none had. |
| Scheduler.Finish | hbuild/scheduler.py:481-483 | Writes the outcome computed from the job's own input into the job's own wrapper: the registered one if it is still the same object, else an orphan. Every other task, the queue, the slots and the mutexes are unchanged. The job leaves the started phase, crashing exactly when its outcome is undefined; a crashed job writes no wrapper at all. |
| Scheduler.Release | hbuild/scheduler.py:485-493 | One worker slot is freed and the job leaves. Its mutexes are released only when it was run. Nothing else changes. |
| Scheduler.RequestTerminate | hbuild/scheduler.py:602-606 | `done` raises only the terminate flag: the registry, queue, slots, mutexes and jobs stay as they are. |
| Scheduler.ProcessorExit | hbuild/scheduler.py:501-508 | The queue processor returns exactly when termination was requested and the queue is empty. |
| Scheduler.TerminateThenExit | hbuild/scheduler.py:602-606 | After `done` has raised the flag, the processor exits exactly when the queue has drained, and exiting changes nothing but the two flags. |
| SchedulerInvariants.SubmitKeepsInv | hbuild/scheduler.py:358-389 | A successful submit keeps the worker bound, mutual exclusion of mutex holders and registry well-formedness. |
| SchedulerInvariants.StartTaskKeepsExclusion | hbuild/scheduler.py:536-538 | Starting a task whose mutexes are free keeps every held mutex held by exactly one run job. |
| SchedulerInvariants.DispatchKeepsInv | hbuild/scheduler.py:496-541 | Dispatching keeps the invariant: at most `max_workers` jobs hold a slot and no two run jobs share a mutex. |
| SchedulerInvariants.BeginKeepsInv | hbuild/scheduler.py:408-414 | A worker reading its input keeps the invariant. |
| SchedulerInvariants.FinishKeepsInv | hbuild/scheduler.py:481-483 | Finishing a job keeps the invariant. |
| SchedulerInvariants.ReleaseHeld | hbuild/scheduler.py:485-493 | After a release a mutex is marked held exactly when a remaining run job holds it. |
| SchedulerInvariants.ReleaseKeepsInv | hbuild/scheduler.py:485-493 | Releasing a job keeps the invariant. |
| SchedulerInvariants.NextKeepsInv | hbuild/scheduler.py:496-541 | Every step of the scheduler and its workers keeps the worker bound and mutual exclusion, whatever ids are submitted. |
| SchedulerLifecycle.InitTidy | hbuild/scheduler.py:306-327 | The state after construction satisfies the life-cycle invariant. |
| SchedulerLifecycle.SubmitTidy | hbuild/scheduler.py:358-389 | Submitting a new id keeps every task in exactly one place of its life cycle. |
| SchedulerLifecycle.SubmitSettled | hbuild/scheduler.py:366-367 | Submitting a new id only adds its wrapper; every registered task keeps what it was submitted with. |
| SchedulerLifecycle.DispatchTidy | hbuild/scheduler.py:516-541 | Dispatching keeps the life-cycle invariant and leaves every registered task as it is. |
| SchedulerLifecycle.BeginTidy | hbuild/scheduler.py:408-447 | With fresh ids, a worker's start keeps the life-cycle invariant and leaves every task as it is. A skipped task always finds a reason naming a failed dependency. |
| SchedulerLifecycle.FinishIsFinishedBy | hbuild/scheduler.py:408-483 | A job of the duplicate-free discipline always has an outcome (it never dies on the skip branch). Finishing completes exactly its own wrapper with that outcome. |
| SchedulerLifecycle.FinishTidy | hbuild/scheduler.py:481-483 | Finishing keeps the life-cycle invariant, and a completed task's result is never changed. |
| SchedulerLifecycle.ReleaseTidy | hbuild/scheduler.py:485-493 | Releasing keeps the life-cycle invariant. |
| SchedulerLifecycle.NextTidy | hbuild/scheduler.py:358-608 | While every submitted id is new, every step keeps each task in one place of its life cycle: queued, in flight, or completed with a status its dependencies justify. A completed result is final. |
| SchedulerLifecycle.BarrierMeansAllCompleted | hbuild/scheduler.py:595-600 | When `barrier` returns (nothing running, nothing queued) every registered task has completed with 'ok', 'fail' or 'skip'. |
| SchedulerLifecycle.IdleQueueDispatches | hbuild/scheduler.py:516-541 | With nothing in flight, a free slot and a non-empty queue, the processor always finds a task to start or skip. The oldest queued task is always ready, so the processor cannot wait forever. |
| SchedulerScenarios.FailedDependenciesSelectSkip | hbuild/scheduler.py:558-560 | A task whose two dependencies failed is selected for skipping: it leaves the queue and takes a worker slot but holds no mutex. |
| SchedulerScenarios.SkipOutcomeNamesLastFailed | hbuild/scheduler.py:443-451 | The skip branch names the failed dependency listed last and never runs the task body. |
| SchedulerScenarios.SkipNamesLastFailedDependency | hbuild/scheduler.py:481-483 | The skipped task is completed with that reason in the registry. |
| SchedulerScenarios.ResubmittedDependencyKeepsReadData | hbuild/scheduler.py:408-414 | A dependency re-submitted while a task body runs does not change what the body works on. The registry holds the fresh, empty wrapper, but the task finishes with the outcome of its body on the data the dependency had when the worker started. |
| SchedulerScenarios.MutexSubmissionOvertakes | hbuild/scheduler.py:375-385 | A submission with a mutex overtakes queued tasks without mutexes but not queued tasks with mutexes. |
| Submissions.SubmitAll | hbuild/scheduler.py:358-389 | Running a batch of submissions keeps the scheduler invariant and registers exactly the batch's ids on top of the known ones. |
| Submissions.DepsKnownConcat | hbuild/scheduler.py:362-364 | A batch passes the dependency check in order exactly when its first part does and the second part does with the first part's ids registered. |
| Submissions.SubmitAllSucceeds | hbuild/scheduler.py:362-364 | A batch goes through without raising exactly when each dependency is registered beforehand or submitted earlier in the batch. |
| Coastline.CleanDeps | hbuild/builders/coastline.py:65-71 | Each harbour's dependency list keeps, in order, exactly the dependencies that are detected harbours. |
| Coastline.Selected | hbuild/builders/coastline.py:74-80 | A harbour is selected exactly when it is detected and named by the filter, or the filter contains 'ALL'. |
| Coastline.Closure | hbuild/builders/coastline.py:81-89 | The `while dependency_added` loop ends with the least set of detected harbours that contains the selection and all dependencies of its members. |
| Coastline.SortRounds | hbuild/builders/coastline.py:96-111 | The rounds of leaf removal produce every selected harbour once and nothing else. They raise "Circular dependency found!" exactly when the remaining harbours contain a set each of whose members depends on a member. |
| Coastline.SortHarbours | hbuild/builders/coastline.py:93-111 | The sort yields each selected harbour once and nothing else. It raises the circular-dependency error exactly when some harbours, selected or not, depend on each other in a cycle. |
| Coastline.RoundKeepsOrder | hbuild/builders/coastline.py:99-111 | One round appends the selected leaves and keeps `build_order` holding exactly the removed selected harbours, in dependency order. |
| Coastline.NoLeafMeansStuck | hbuild/builders/coastline.py:106-107 | A round without leaves leaves a set of harbours each of which depends on another of them. |
| Coastline.StuckSurvivesRound | hbuild/builders/coastline.py:108-111 | Such a set never loses a member, so the sort must end in the error. |
| Coastline.GetHarbours | hbuild/builders/coastline.py:53-121 | `harbour_deps` are the cleaned lists. `harbours` lists every selected harbour and every dependency it needs, each once and after its own dependencies, and nothing outside the least closed selection. The task raises the circular-dependency error exactly when the cleaned graph has a cycle. |
| Coastline.ScheduleFetches | hbuild/builders/coastline.py:139-154 | One dependency-free fetch is submitted per harbour, in order, and `fetch_tasks` maps each harbour to its fetch id. |
| Coastline.ScheduleBuilds | hbuild/builders/coastline.py:208-245 | `harbour_tasks` has every profile except special/abs32le and, for each, every harbour. Each entry names a submitted build. |
| Coastline.ProfileSubsDepsKnown | hbuild/builders/coastline.py:223-241 | One profile's preparation and harbour builds only depend on its HelenOS build, the fetches and builds submitted before them. |
| Coastline.HarbourBuildsSubmittable | hbuild/builders/coastline.py:215-241 | Once the HelenOS builds and the fetches are registered, every build scheduled from a successful harbour scan passes `submit`'s dependency check. |
| HelenOS.HarbourTasks | hbuild/builders/helenos.py:159-163 | The harbour build tasks are collected in order, and the lookup gives None exactly when one is missing. |
| HelenOS.Build | hbuild/builders/helenos.py:145-175 | `build` keys the request by the profile and the sorted harbours. An already scheduled key is returned without a submission. A missing HelenOS or harbour build gives None. Otherwise it records the key and submits it once, depending on the HelenOS build and then the harbour builds in sorted order, under the mutex `extras-<profile>`. |
| HelenOS.BuildAgainSubmitsNothing | hbuild/builders/helenos.py:147-151 | Asking again for the same profile and harbours, in any order, returns the first call's key and submits nothing. |
| HelenOS.AtMostOneSubmitPerKey | hbuild/builders/helenos.py:150-165 | Over any sequence of calls the manager records exactly the keys submitted, and no key is submitted twice. |
| HelenOS.HyphenatedHarbourSharesKey | hbuild/builders/helenos.py:149 | Joining names with '-' lets harbour `a-b` share the key of the build with `a` and `b`; the second request is answered with that build. |
| HelenOS.EntryPairs | hbuild/builders/helenos.py:205-220 | An entry that is a profile is listed by its sub-profiles when it has any, and otherwise by its own name. |
| HelenOS.Profiles | hbuild/builders/helenos.py:202-220 | The `profiles` dict holds each profile name once: the sub-profiles of entries that have them and the other profile entries. |
| HelenOS.ParentWithSubprofileNotListed | hbuild/builders/helenos.py:207-220 | An entry with a sub-profile is never listed itself. |
| HelenOS.UImageProfilesForced | hbuild/builders/helenos.py:215-218 | The four arm32 boards always get `uImage.bin` as their image, whatever their `output` file says. |
| HelenOS.FirstSegment | hbuild/builders/helenos.py:227 | `p.split('/')[0]` is the prefix of `p` before its first '/', or `p` itself. |
| HelenOS.FilterProfiles | hbuild/builders/helenos.py:225-229 | The filtered dict keeps, in order and with their images, exactly the profiles named by the filter, 'ALL' or their family wildcard. |
| HelenOS.GetProfiles | hbuild/builders/helenos.py:198-236 | The task's `profiles` are exactly the discovered profiles the filter wants, each once with its image. |
| HelenOS.WildcardKeepsFamily | hbuild/builders/helenos.py:227-228 | A wildcard `family/*` keeps every profile of that family. |
| HelenOS.ScheduleBuilds | hbuild/builders/helenos.py:243-256 | One dependency-free build per profile, in dict order, with the profile's image. `helenos_tasks` maps every profile to its submitted build id. |
| HelenOS.BuildsRegisterEveryProfile | hbuild/builders/helenos.py:247-253 | The builds pass the scheduler without raising, and afterwards every profile's build id is registered. |
| HelenOS.ExtensionOfName | hbuild/builders/helenos.py:76 | `os.path.splitext` gives `.ext` for `stem.ext` when the stem is not made of dots only. |
| HelenOS.BuildRunAsWritten | hbuild/builders/helenos.py:48-81 | As written: the build raises with the first failing command's message exactly when one of rsync, mkdir, configure, ninja and `ninja image_path` fails. A build that returns hands over None as its `image`. |
| HelenOS.BuildRun | hbuild/builders/helenos.py:48-81 | The same raise behaviour. A build that returns hands over the published image path as `image` (None without an image), the image name as `built-image` and its directory as `dir`. |
| HelenOS.ConfigureFailureRaises | hbuild/builders/helenos.py:56-58 | A failing configure step fails the build with "`sh <dir>/configure.sh <profile>' failed: <last line>", not with a returned False. |
| Testing.ScenarioList | hbuild/builders/tests.py:44-60 | The scenario list holds only `.yml` paths below the base, and nothing for the base `dummy/`. |
| Testing.FileScenario | hbuild/builders/tests.py:55-58 | A plain file is listed exactly when its extension is `.yml`. |
| Testing.DummySubtreeExcluded | hbuild/builders/tests.py:45-46 | Nothing under the top-level `dummy` directory is ever listed. |
| Testing.KeepMatching | hbuild/builders/tests.py:68-73 | The filtered list keeps the files in order, each as often as listed when some pattern matches it and not at all otherwise. |
| Testing.GetTestList | hbuild/builders/tests.py:62-79 | The `scenarios` are the listed files that match a pattern of the filter; 'ALL' stands for the listed files themselves. |
| Testing.AllKeepsEveryFile | hbuild/builders/tests.py:65-66 | With 'ALL', every listed file is kept, provided each file name matches itself as an `fnmatch` pattern. A name containing `[` may not: `fnmatch('a[1].yml', 'a[1].yml')` is False, so the source drops such a file even under 'ALL'. |
| Testing.NeededHarbours | hbuild/builders/tests.py:187-198 | The needed harbours are the sorted `meta.harbours` list. A document that cannot be loaded or has no such list gives []. |
| Testing.TestedProfiles | hbuild/builders/tests.py:102-106 | The tested profiles are the testable ones that have a HelenOS build, in testable order. |
| Testing.PairStep | hbuild/builders/tests.py:111-127 | Without needed harbours the test depends on the plain HelenOS build. Otherwise it depends on the extra build, which is submitted first when new. When the extra build cannot be made the pair is skipped. |
| Testing.TestsSubmittable | hbuild/builders/tests.py:94-127 | Once the HelenOS and harbour builds are registered, every test and extra build submitted passes `submit`'s dependency check. |
| Testing.TestCommand | hbuild/builders/tests.py:217-229 | The tester command starts with the tester, passes the image as `--image=`, then the extra options, and ends with `--scenario <file>`. |
| Testing.TestRun | hbuild/builders/tests.py:209-239 | A build that hands over None returns False without starting the tester. The test passes exactly when the tester was started and exited with 0. A failing tester raises with its message. Artefacts are published exactly on success. |
| Testing.TestRunStartsTester | hbuild/builders/tests.py:210-229 | A dependency that hands over an image path and a directory makes the test run start the tester on that image. |
| Testing.AsWrittenTestRunsFail | hbuild/builders/helenos.py:79 | As written, every test run fails with "run() returned False" after a successful build, because the build hands over None as its image. |
| Testing.CorrectedTestRunUsesImage | hbuild/builders/tests.py:210-229 | With the build handing over the published image path, the test run starts the tester on that image. |
| Sycek.CheckedFiles | hbuild/checkers/sycek.py:104-120 | The checked paths are exactly the `.c` and `.h` files of the walk not under `uspace/lib/pcut/`. |
| Sycek.CheckedAreCSources | hbuild/checkers/sycek.py:70-72 | No checked path lies under the pcut library, and every checked path names a C source or header. |
| Sycek.CheckOneFile | hbuild/checkers/sycek.py:74-87 | A file is okay exactly when the checker printed nothing. Otherwise it counts the printed lines as issues and logs that there were issues. |
| Sycek.Tally | hbuild/checkers/sycek.py:122-133 | Every file is counted once, as clean or with errors. The verdict is that every file printed nothing. The failure and issue counts stay 0 because a file with issues is never okay. |
| Sycek.CountKeepsTotal | hbuild/checkers/sycek.py:125-133 | Whatever the per-file results, the total is the sum of clean, failing and erroneous files. |
| Sycek.WalkAll | hbuild/checkers/sycek.py:104-105 | The walk visits exactly the directories found under each of the top directories. |
| Sycek.Run | hbuild/checkers/sycek.py:89-146 | The task succeeds exactly when every checked file under abi, kernel, boot and uspace is clean. Otherwise it raises "Some files has C style issues."; the total counts every checked file. |
| ScenarioTasks.CheckRequiredArgument | htest/tasks.py:50-56 | A missing argument raises "Required argument X missing.", exactly when it is missing. |
| ScenarioTasks.OnlyBootLaunches | htest/tasks.py:58-62 | The boot task, and no other, launches a machine. |
| ScenarioTasks.NewCommand | htest/tasks.py:98-107 | A bare string is the command itself. A mapping must have `args`, which is the command, and `ignoreabort` defaults to false. |
| ScenarioTasks.PlainIsArgsField | htest/tasks.py:100-101 | A bare string behaves like a mapping holding only `args`. |
| ScenarioTasks.Grep | htest/tasks.py:109-113 | `_grep` is true exactly when some line contains the text. |
| ScenarioTasks.GrepEmptyText | htest/tasks.py:109-113 | The empty text is found in any non-empty batch of lines. |
| ScenarioTasks.Judge | htest/tasks.py:149-160 | One batch of output fails on an abort message unless aborts are ignored, then on the forbidden text. With the prompt present it fails when the expected text is missing and is done otherwise. Without the prompt it continues. |
| ScenarioTasks.IgnoreAbortOnlyRelaxes | htest/tasks.py:150-152 | `ignoreabort` changes the verdict only where an abort message decided it. |
| ScenarioTasks.Outcome | htest/tasks.py:144-160 | The command ends with the verdict of the first batch that does not continue; reading only continuing batches is the timeout. |
| ScenarioTasks.OutcomeIgnoresLater | htest/tasks.py:144-160 | Batches after the deciding one do not matter. |
| ScenarioTasks.TypedEcho | htest/tasks.py:131-136 | The echoed command is recognised whether or not the cursor follows it. |
| ScenarioTasks.TypedShape | htest/tasks.py:131-136 | Whatever counts as typed ends with the stripped command, possibly followed by the cursor. |
| ScenarioTasks.ClsKeys | htest/tasks.py:171-175 | `cls` types thirty newlines. |
| ScrollTerm.Capture | htest/scrollterm.py:41-49 | Every captured line is right-stripped: a prefix of the raw line, followed only by whitespace, and not ending in whitespace itself. |
| ScrollTerm.ClearEmptyTail | htest/scrollterm.py:107-110 | The trailing blank lines are dropped and nothing else: the result is a prefix whose last line is not blank. |
| ScrollTerm.ClearEmptyTailIdempotent | htest/scrollterm.py:107-110 | Clearing twice clears nothing more. |
| ScrollTerm.SameLines | htest/scrollterm.py:112-122 | Two screens are the same when all but their last lines agree and the last lines are equal. When the old last line ends with the cursor, it suffices that the new one starts with it minus the cursor; that case is flagged. |
| ScrollTerm.SameLinesRefl | htest/scrollterm.py:112-122 | A screen is the same as itself. |
| ScrollTerm.ScanOverlap | htest/scrollterm.py:88-99 | The scan finds the largest `k` such that the last `k` lines of the old screen match the first `k` of the new one, or none when there is no such `k`. |
| ScrollTerm.GetLinesOnce | htest/scrollterm.py:57-105 | An empty cleaned screen returns nothing and stores nothing. The first screen is returned whole. Later screens return a tail of the cleaned screen, and the screen is stored. |
| ScrollTerm.GetLinesOnceLargestOverlap | htest/scrollterm.py:85-105 | With the largest overlap at `k`, the lines after it are returned, plus the matched last line when it carried the cursor. |
| ScrollTerm.GetLinesOnceNoOverlap | htest/scrollterm.py:85-105 | Without overlap the whole screen is returned. |
| ScrollTerm.SameScreenYieldsNothing | htest/scrollterm.py:85-105 | An unchanged screen whose last line does not end with the cursor yields no new lines. |
| ScrollTerm.CaptureTestScreens | tests/test_scrollterm.py:49-55 | The screens of `test_capture` are read back as they are. |
| ScrollTerm.CaptureStripsLines | htest/scrollterm.py:46-49 | Trailing spaces and tabs are dropped from every captured line. |
| ScrollTerm.SameLinesCases | tests/test_scrollterm.py:63-72 | The five cases of `test_intr_same_lines` give the expected pairs. |
| ScrollTerm.GetLinesOnceSimple | tests/test_scrollterm.py:75-85 | `test_get_lines_once_simple`: the whole first screen, nothing for the same screen, then only the lines that scrolled in. |
| ScrollTerm.GetLinesOnceSlowLine | tests/test_scrollterm.py:87-95 | `test_get_lines_once_slow_line`: a line shown while being typed is returned again once it is complete. |
| VmControl.Create | htest/vm/controller.py:45-50 | A duplicate name raises "Duplicate machine name X.". Otherwise the new machine, built from the manager's architecture and boot image, is registered and becomes the last one. |
| VmControl.Get | htest/vm/controller.py:52-61 | Without a name the last machine is meant. A registered name returns its machine and becomes the last. Otherwise None, with nothing changed. |
| VmControl.CreateThenGet | htest/vm/controller.py:45-61 | After creating a machine, asking for the last one or for it by name gives it back; an unknown name gives None. |
| VmControl.SameVtermTail | htest/vm/controller.py:103-114 | As written: the lines are the tail of the history exactly when they are no longer than it and agree from the end, the last one by prefix after turning `_` into spaces and stripping. It raises IndexError exactly when the lines are longer and agree over the whole history. |
| VmControl.SameVtermTailFixed | htest/vm/controller.py:103-114 | As intended: lines longer than the history are not its tail; otherwise as written. |
| VmControl.SameVtermTailAgrees | htest/vm/controller.py:103-114 | Where the comparison as written does not raise, it agrees with the intended one. |
| VmControl.ScanDown | htest/vm/controller.py:138-143 | The scan from the longest head down returns the length of a head that matches, or 0. A raise comes from one of the heads it tried. |
| VmControl.ScreenLines | htest/vm/controller.py:123-128 | The screen is read with every line stripped: the kept lines are the stripped prefix of the screen, and the last kept line, if any, is not empty. |
| VmControl.ScreenLinesDropsEmptyTail | htest/vm/controller.py:123-128 | Every screen line after the kept ones strips to the empty line. With the contract of `ScreenLines`, exactly the trailing lines that are empty after stripping are dropped. |
| VmControl.CaptureVterm | htest/vm/controller.py:116-158 | A capture that does not raise continues the history: a blank screen changes nothing and the first screen is copied. Otherwise only the last history line may be replaced, and the screen from some line on follows, or the marker and the whole screen. Whenever it does not raise, its result is that of the intended capture, so the longest matching head decides and the marker appears exactly when no head matched. |
| VmControl.CaptureVtermFixed | htest/vm/controller.py:116-158 | With the intended comparison the capture never raises and always continues the history that way. |
| VmControl.HistoryKept | htest/vm/controller.py:145-158 | All history lines but the last stay as they are after a capture. |
| VmControl.CaptureLongestHead | htest/vm/controller.py:140-158 | With the longest matching head of `k` lines, the last history line is replaced by the screen from line `k` on (counting from 1). |
| VmControl.CaptureNoOverlap | htest/vm/controller.py:145-158 | With no matching head, the marker and then the whole screen are appended. |
| VmControl.CaptureAsWrittenRaises | htest/vm/controller.py:105-111 | As written, the screen `# ls`, `a.txt`, `#` after the history `#` makes the capture raise. |
| VmControl.CaptureFixedExtendsPrompt | htest/vm/controller.py:140-158 | With the intended comparison, the same input replaces the prompt line with `# ls` and appends the rest. |
| Msim.SupportedArchitectures | htest/vm/msim.py:58-59 | The substring test accepts `mips32/msim`, also `mips32` and the empty string, and rejects `amd64`. |
| Msim.XserverCommand | htest/vm/msim.py:61-73 | Headless runs Xvfb, otherwise Xephyr, on the given display with the fixed screen options. |
| Msim.DisplayNumbers | htest/vm/msim.py:75-77 | The tried displays are `:0` to `:max-1`, in order. |
| Msim.DisplayNumbersDistinct | htest/vm/msim.py:75-77 | No display number is tried twice. |
| Msim.ListMatches | htest/vm/msim.py:95-103 | The tokens match exactly when they are as many as expected and equal wherever a token is expected. |
| Msim.Rewrite | htest/vm/msim.py:105-125 | The configuration is rewritten line by line, one output line per input line. |
| Msim.RewriteFromAt | htest/vm/msim.py:110-124 | Each output line is its input line rewritten under the boot memory and disk declared up to and including it. |
| Msim.BootImageLoaded | htest/vm/msim.py:113-116 | After `add rom X 0x1fc00000`, and with no later rom declaration, a line `X load _` loads the quoted boot image. |
| Msim.DiskImageMapped | htest/vm/msim.py:117-123 | After `add ddisk D 0x10000200 _`, a line `D fmap _` maps the quoted disk image, or is emptied when there is none. |
| Msim.OtherLinesKept | htest/vm/msim.py:111-124 | Every other line keeps its tokens; only the spacing is normalised. |
| Msim.Key | htest/vm/msim.py:248-253 | An upper-case letter is sent as `shift+` and the lower-case letter, the eight special characters by their X names, and anything else as itself. |
| Msim.KeysInjective | htest/vm/msim.py:248-253 | Different texts are typed as different key sequences. |
| Qemu.SupportedArchitectures | htest/vm/qemu.py:90-91 | Exactly amd64, arm32/integratorcp, ia32 and ppc32 are supported. |
| Qemu.Expand | htest/vm/qemu.py:130-135 | `{BOOT}` becomes the boot image and `{MEMORY}` the memory size in decimal; every other option is kept. |
| Qemu.BootCommand | htest/vm/qemu.py:127-142 | An unknown architecture is a KeyError. Otherwise the command is the expanded template, then `-display none` when headless, the monitor socket and the extra options. |
| Qemu.BootCommandShape | htest/vm/qemu.py:136-142 | The extra options come last, right after the monitor socket, and the window is switched off exactly when headless. |
| Qemu.ImageAndMemory | htest/vm/qemu.py:47-76 | On every architecture the boot image follows `-cdrom` or `-kernel` and the memory size follows `-m`. |
| Qemu.CheckIsUp | htest/vm/qemu.py:99-101 | A machine not booted raises "Machine not launched". |
| Qemu.SendCommand | htest/vm/qemu.py:103-107 | Before boot the send raises; otherwise the command goes to the monitor followed by a newline. |
| Qemu.Type | htest/vm/qemu.py:276-293 | Each character is sent as one `sendkey`: upper-case as `shift-` and the lower-case letter, the eight special characters by their monitor names, others as themselves. Before boot typing raises unless the text is empty. |
| Qemu.TypeInjective | htest/vm/qemu.py:276-293 | Different texts are typed as different command sequences. |
| Qemu.Grid | htest/vm/qemu.py:204-206 | The terminal grid is the number of whole 8x16 character cells that fit in the screenshot. |
| Dicts.Put | hbuild/builders/helenos.py:218-220 | Assigning to a present key keeps its place; a new key goes last. |
| Dicts.PutGet | hbuild/builders/helenos.py:218-220 | The assigned key holds the assigned value. |
| Dicts.PutKeepsOthers | hbuild/builders/helenos.py:218-220 | Assigning to one key leaves every other key's value alone. |
| Dicts.PutAllGet | hbuild/builders/helenos.py:203-220 | After a run of assignments every key holds the value it was last assigned. |
| Seqs.RemoveFirstAt | hbuild/scheduler.py:525 | `queue.remove(id)` drops the first occurrence, which is position `i` when no earlier entry holds the same id. |
| Seqs.Sort | hbuild/builders/helenos.py:147 | `sorted` gives an ascending permutation of its input. |
| Seqs.SortPermutationInvariant | hbuild/builders/helenos.py:147 | Any two arrangements of the same names sort to the same list. |
| Strings.SplitJoin | htest/vm/msim.py:111-124 | Joining tokens with single spaces and splitting again gives the tokens back. |
| Strings.ParseNatToString | htest/vm/qemu.py:134 | The decimal text of a number reads back as that number. |

## Left out

- Threads, the condition variable and the thread-pool executor. Each critical
  section under `self.guard` is one atomic step, and which enabled step comes
  next is left open. The invariants hold for every order.
- Timing and retries. In `htest/tasks.py` a command step that never sees the
  prompt raises "Failed to run command" when its 60-second retry budget runs
  out. `ScenarioTasks.Outcome` returns `Continue` for such a run. Typing a
  command is judged by `Typed` and its lemmas; the wait for it is not modelled.
- Subprocess execution, the file system, logging, the XML report, the
  console output and timing of `Task.execute`, and the HTML/JSON output of
  the other hbuild modules. Command results, directory listings and file
  contents are inputs of the model.
- YAML parsing: `Testing.NeededHarbours` gets the parsed document, or an
  error for a document that cannot be loaded.
- `fnmatch` is a parameter (`matches`) of `Testing.GetTestList`.
- `os.walk` is a parameter (`walkOf`) of `Sycek.Run`. Its relative paths are
  the `prefix` of each `WalkEntry`.
- Testing.NeededHarbours: the `open()` in `get_needed_harbours` sits outside
  the `try`, so a missing scenario file raises out of the scheduling task.
  The model treats every load failure as the empty list.
- Testing.NeededHarbours: a `harbours` list with non-string items is treated
  as no list. In the source it reaches `sort()` and `build`.
- Strings: whitespace is the ASCII part of Python's `str.isspace`: space,
  tab, newline, vertical tab, form feed, carriage return and the separators
  `\x1c` to `\x1f`. Case conversion in the `type` methods is ASCII only.
  Python's `str.strip`, `str.split` and `str.isupper` also handle the
  non-ASCII Unicode whitespace and letters.
- Tasks.GetData, Tasks.GetDependencyData, Testing.TestRun, Qemu.BootCommand,
  VmControl.SameVtermTail: an exception raised by the interpreter is carried
  with a fixed text, not Python's own. Python's text is the repr of the
  missing key, or the interpreter's wording, which varies between Python
  versions. The fixed texts are:
  - "TypeError" and "KeyError" (`Tasks.TypeErrorMessage`,
    `Tasks.KeyErrorMessage`) in the first three;
  - "KeyError: " followed by the architecture for an unsupported
    architecture in `Qemu.BootCommand`;
  - "IndexError: list index out of range" for a head longer than the
    history in `VmControl.SameVtermTail` (raised in `VmControl.TailFrom`).

  Messages raised by the scripts themselves are modelled verbatim.
- Python object identity: a `TaskWrapper` object is identified by a serial
  number, so a job keeps writing to the wrapper it was dispatched with.
- `make_temp_dir`, `makedirs` and `os.path.abspath`: directory names are
  given as inputs, and the failure of creating them is not modelled.
- `HelenOSBuildWithHarboursTask.run`, `CoastlineFetchTask.run`,
  `CoastlinePrebuildTask.run`, `CoastlineBuildTask.run` and
  `SycekBuildTask.run` are left out. The model covers only the submissions
  that create these tasks and the `run_command` semantics they share.
- The `res['failed']` checks after `run_command`. A failing command raises
  before them, so they never fire; the model takes the raise.
- The summary lines sycek logs (`Files scanned: ...`); the counters behind
  them are modelled.
- The msim and QEMU process control: starting the X server, booting,
  `xdotool`, screenshots, OCR, the monitor socket and terminating. Only the
  pure parts are modelled: the command lines, the configuration rewrite, the
  key translation and the grid size.
- Resetting `vterm` after boot and between the loops of the command task.
  The history update itself is modelled.
- Non-string values in scenario arguments: options are string-valued and
  `ignoreabort` is an optional boolean.
- `shlex` quoting, the entry scripts (`build.py`, `test-in-vm.py`,
  `vm-test.py`) and `hbuild/cvs.py`, `hbuild/gendoc.py`, `hbuild/web.py`,
  `hbuild/output.py` and `htest/utils.py`.
- Scheduler.Begin: a worker reads the data of all its dependencies in one
  step. The source reads them one by one (`get_data` under each wrapper's
  lock), so a dependency re-submitted in the middle of that loop is not
  modelled.
- Scheduler.Finish: `set_status` and `set_done` are one step. Between them
  the source's wrapper has its new status but is not yet completed. Every
  reader tests `completed` first (`has_finished`, `has_completed_okay`), so
  no other thread sees the difference.
- Scheduler.ProcessorExit: the wait of `process_queue` is not a step.
  A dispatch attempt that finds nothing to do leaves the state as it is.

## Findings

| source | as written | input that shows it | evidently intended | confidence | as-written member | corrected member |
|---|---|---|---|---|---|---|
| hbuild/builders/helenos.py:79 | `ret['image']` is assigned the result of `add_downloadable_file`, which returns nothing, so every build hands over `image: None`. `TestRunTask.run` (hbuild/builders/tests.py:212-213) then returns False. | Any profile with a boot image whose build succeeds. Every test run on it fails with "run() returned False" and never starts the tester. | `image` holds the path of the published image, and the test run passes that path to the tester. | not executed | Testing.AsWrittenTestRunsFail (on HelenOS.BuildRunAsWritten) | Testing.CorrectedTestRunUsesImage (on HelenOS.BuildRun) |
| htest/vm/controller.py:103-114 | `same_vterm_tail` indexes `full_vterm[i]` for every line of the head. A head longer than the history raises IndexError, and `capture_vterm` (lines 140-143) tries the longest head first. | History `["#"]`, screen `["# ls", "a.txt", "#"]`: the last lines agree, then `full_vterm[-2]` does not exist. | A head longer than the history is no match, and the scan goes on to shorter heads. | not executed | VmControl.CaptureAsWrittenRaises (on VmControl.SameVtermTail) | VmControl.CaptureFixedExtendsPrompt (on VmControl.SameVtermTailFixed and VmControl.CaptureVtermFixed) |
