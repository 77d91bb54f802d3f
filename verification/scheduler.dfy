/** `BuildScheduler` of hbuild/scheduler.py as a state machine.

    The scheduler's threads touch the guarded attributes only inside
    `with self.guard:` sections, and a wrapper's status and data only under
    the wrapper's own lock. Each of these sections is one atomic transition
    here: `Submit`, `Dispatch` (one iteration of `process_queue` that starts a
    task) and `Release` (the worker's final guarded section). A worker adds two
    steps of its own, with the task body running between them and no lock
    held: `Begin` reads what the task will work on from the registry, and
    `Finish` writes the wrapper's status and data. */
module Scheduler {
  import opened Wrappers
  import opened Tasks
  import Seqs

  /** `TaskWrapper`. `serial` stands for the wrapper object's identity: a job
      keeps updating the wrapper it was dispatched with, even after the id has
      been submitted again and the registry points at a newer wrapper. */
  datatype Wrapper = Wrapper(
    id: string,
    serial: nat,
    description: string,
    work: Work,
    deps: seq<string>,
    mutexes: seq<string>,
    status: Status,
    reason: Option<string>,
    completed: bool,
    data: Value)

  /** `TaskWrapper.has_finished`. */
  predicate HasFinished(w: Wrapper) {
    w.completed
  }

  /** `TaskWrapper.has_completed_okay`. */
  predicate HasCompletedOkay(w: Wrapper) {
    w.completed && w.status == Succeeded
  }

  /** A dependency that makes its dependants skip. */
  predicate FinishedNotOkay(w: Wrapper) {
    w.completed && w.status != Succeeded
  }

  /** Where the executor's work item for a dispatched task is: running its
      task, past writing the wrapper but not yet out of the final guarded
      section, or dead of an exception (which leaves its slot taken). */
  datatype Phase = Started | Finished | Crashed

  /** What the worker reads from the registry when it starts: the dependency
      dict of a task it runs, or the skip loop's `reason` as the id of the
      dependency it names (`None` while the variable is unbound). */
  datatype JobInput = RunInput(ctx: Context) | SkipInput(reason: Option<string>)

  /** A dispatched task: the arguments of `task_run_wrapper`, its phase, and
      what its worker has read once it has started. */
  datatype Job = Job(id: string, serial: nat, deps: seq<string>, mutexes: seq<string>, canBeRun: bool,
                     phase: Phase, input: Option<JobInput>)

  /** The attributes guarded by `self.guard`, plus the wrapper registry. */
  datatype State = State(
    maxWorkers: nat,
    tasks: map<string, Wrapper>,
    queue: seq<string>,
    held: map<string, bool>,
    running: nat,
    jobs: seq<Job>,
    nextSerial: nat,
    terminate: bool,
    processorExited: bool)

  /** `self.task_mutexes[m]` is present and true. */
  predicate Holds(held: map<string, bool>, m: string) {
    m in held && held[m]
  }

  /** The state right after `BuildScheduler.__init__`. */
  function Init(maxWorkers: nat): State {
    State(maxWorkers, map[], [], map[], 0, [], 0, false, false)
  }

  // ---------------------------------------------------------------------------
  // submit

  function UnknownDependency(d: string): string {
    "Dependency " + d + " is not known."
  }

  /** The dependency check loop of `submit`: the first dependency that is not registered. */
  function FirstUnknown(tasks: map<string, Wrapper>, deps: seq<string>): (r: Option<nat>)
    ensures r.None? <==> forall d :: d in deps ==> d in tasks
    ensures r.Some? ==> r.value < |deps| && deps[r.value] !in tasks
                        && forall j :: 0 <= j < r.value ==> deps[j] in tasks
    decreases |deps|
  {
    if |deps| == 0 then None
    else if deps[0] !in tasks then Some(0)
    else
      var r := FirstUnknown(tasks, deps[1..]);
      assert forall d :: d in deps ==> d == deps[0] || d in deps[1..];
      if r.None? then None
      else
        assert deps[r.value + 1] == deps[1..][r.value];
        Some(r.value + 1)
  }

  /** The `new_queue` loop of `submit` for a task with mutexes: `id` goes in
      front of the first queued task without mutexes, `inserted` recording
      whether that already happened. */
  function InsertLoop(queue: seq<string>, id: string, tasks: map<string, Wrapper>, inserted: bool): (r: seq<string>)
    requires forall q :: q in queue ==> q in tasks
    ensures inserted ==> r == queue
    ensures |r| == |queue| + (if inserted then 0 else 1)
    decreases |queue|
  {
    if |queue| == 0 then
      if inserted then [] else [id]
    else
      var q := queue[0];
      var here := |tasks[q].mutexes| == 0 && !inserted;
      var rest := InsertLoop(queue[1..], id, tasks, inserted || here);
      assert inserted ==> [q] + rest == queue;
      (if here then [id, q] else [q]) + rest
  }

  /** `r` is `queue` with `id` inserted at position `k`, which is the first
      position holding a task without mutexes (or the end). */
  predicate InsertedBeforeFirstFree(queue: seq<string>, id: string, tasks: map<string, Wrapper>, r: seq<string>, k: int)
    requires forall q :: q in queue ==> q in tasks
  {
    0 <= k <= |queue| && r == queue[..k] + [id] + queue[k..]
    && (forall j :: 0 <= j < k ==> |tasks[queue[j]].mutexes| > 0)
    && (k < |queue| ==> |tasks[queue[k]].mutexes| == 0)
  }

  /** The loop puts `id` right before the first queued task without mutexes
      (at the end when there is none) and keeps the order of the others. */
  lemma {:induction false} InsertLoopPosition(queue: seq<string>, id: string, tasks: map<string, Wrapper>)
    requires forall q :: q in queue ==> q in tasks
    ensures exists k :: InsertedBeforeFirstFree(queue, id, tasks, InsertLoop(queue, id, tasks, false), k)
    decreases |queue|
  {
    var r := InsertLoop(queue, id, tasks, false);
    if |queue| == 0 {
      assert r == queue[..0] + [id] + queue[0..];
      assert InsertedBeforeFirstFree(queue, id, tasks, r, 0);
    } else if |tasks[queue[0]].mutexes| == 0 {
      assert r == [id, queue[0]] + queue[1..];
      assert r == queue[..0] + [id] + queue[0..];
      assert InsertedBeforeFirstFree(queue, id, tasks, r, 0);
    } else {
      var t := queue[1..];
      var rt := InsertLoop(t, id, tasks, false);
      InsertLoopPosition(t, id, tasks);
      var k :| InsertedBeforeFirstFree(t, id, tasks, rt, k);
      assert r == [queue[0]] + rt;
      assert queue[..k + 1] == [queue[0]] + t[..k];
      assert queue[k + 1..] == t[k..];
      assert r == queue[..k + 1] + [id] + queue[k + 1..];
      forall j | 0 <= j < k + 1 ensures |tasks[queue[j]].mutexes| > 0 {
        if j > 0 { assert queue[j] == t[j - 1]; }
      }
      assert k + 1 < |queue| ==> queue[k + 1] == t[k];
      assert InsertedBeforeFirstFree(queue, id, tasks, r, k + 1);
    }
  }

  /** The wrapper `submit` creates. */
  function NewWrapper(s: State, sub: Submission): Wrapper {
    Wrapper(sub.id, s.nextSerial, sub.description, sub.work, sub.deps, sub.mutexes,
            NotAvailable, None, false, EmptyData)
  }

  predicate QueueRegistered(s: State) {
    forall q :: q in s.queue ==> q in s.tasks
  }

  /** `BuildScheduler.submit`. */
  function Submit(s: State, sub: Submission): (r: Result<State>)
    requires QueueRegistered(s)
    ensures r.Err? <==> exists d :: d in sub.deps && d !in s.tasks
    ensures r.Err? ==> exists i :: 0 <= i < |sub.deps| && sub.deps[i] !in s.tasks
                                   && (forall j :: 0 <= j < i ==> sub.deps[j] in s.tasks)
                                   && r.msg == UnknownDependency(sub.deps[i])
    ensures r.Ok? ==> r.value == s.(tasks := r.value.tasks, queue := r.value.queue, nextSerial := s.nextSerial + 1)
    ensures r.Ok? ==> r.value.tasks == s.tasks[sub.id := NewWrapper(s, sub)]
    ensures r.Ok? && |sub.mutexes| == 0 ==> r.value.queue == s.queue + [sub.id]
    ensures r.Ok? && |sub.mutexes| > 0 ==>
              forall q :: q in s.queue ==> q in r.value.tasks
    ensures r.Ok? && |sub.mutexes| > 0 ==>
              exists k :: InsertedBeforeFirstFree(s.queue, sub.id, r.value.tasks, r.value.queue, k)
  {
    match FirstUnknown(s.tasks, sub.deps)
    case Some(i) => Err(UnknownDependency(sub.deps[i]))
    case None =>
      var tasks := s.tasks[sub.id := NewWrapper(s, sub)];
      var queue := if |sub.mutexes| > 0 then InsertLoop(s.queue, sub.id, tasks, false) else s.queue + [sub.id];
      InsertLoopPosition(s.queue, sub.id, tasks);
      Ok(s.(tasks := tasks, queue := queue, nextSerial := s.nextSerial + 1))
  }

  // ---------------------------------------------------------------------------
  // get_first_ready_task_id_

  /** How the inner loop over a queued task's dependencies ends. */
  datatype DepWalk = Blocked | SkipNow | AllOk

  /** The inner `for task_dep_id in task.dependencies` loop: `Blocked` at the
      first unfinished dependency (`break`), `SkipNow` at the first finished
      non-'ok' one (`return (task_id, False)`), `AllOk` when it runs out. */
  function WalkDeps(tasks: map<string, Wrapper>, deps: seq<string>): (r: DepWalk)
    requires forall d :: d in deps ==> d in tasks
    ensures r == AllOk <==> forall i :: 0 <= i < |deps| ==> HasCompletedOkay(tasks[deps[i]])
    ensures r == SkipNow <==> exists i :: 0 <= i < |deps| && FinishedNotOkay(tasks[deps[i]])
                                         && forall j :: 0 <= j < i ==> HasCompletedOkay(tasks[deps[j]])
    ensures r == Blocked <==> exists i :: 0 <= i < |deps| && !HasFinished(tasks[deps[i]])
                                         && forall j :: 0 <= j < i ==> HasCompletedOkay(tasks[deps[j]])
  {
    WalkFrom(tasks, deps, 0)
  }

  /** The loop from position `k` on, every earlier dependency having
      completed 'ok'. */
  function WalkFrom(tasks: map<string, Wrapper>, deps: seq<string>, k: nat): (r: DepWalk)
    requires forall d :: d in deps ==> d in tasks
    requires k <= |deps| && forall j :: 0 <= j < k ==> HasCompletedOkay(tasks[deps[j]])
    ensures r == AllOk <==> forall i :: 0 <= i < |deps| ==> HasCompletedOkay(tasks[deps[i]])
    ensures r == SkipNow <==> exists i :: 0 <= i < |deps| && FinishedNotOkay(tasks[deps[i]])
                                         && forall j :: 0 <= j < i ==> HasCompletedOkay(tasks[deps[j]])
    ensures r == Blocked <==> exists i :: 0 <= i < |deps| && !HasFinished(tasks[deps[i]])
                                         && forall j :: 0 <= j < i ==> HasCompletedOkay(tasks[deps[j]])
    decreases |deps| - k
  {
    if k == |deps| then AllOk
    else
      var d := tasks[deps[k]];
      if !HasFinished(d) then Blocked
      else if d.status != Succeeded then SkipNow
      else WalkFrom(tasks, deps, k + 1)
  }

  /** The `for task_mutex in task.mutexes` loop runs out without `break`. */
  predicate MutexesFree(held: map<string, bool>, mutexes: seq<string>) {
    forall m :: m in mutexes ==> !Holds(held, m)
  }

  predicate DepsRegistered(s: State) {
    forall id, d :: id in s.tasks && d in s.tasks[id].deps ==> d in s.tasks
  }

  /** What the scan concludes about one queued task: `Some(false)` when it can
      be skipped now, `Some(true)` when it can run, `None` when it must wait. */
  function Readiness(s: State, id: string): Option<bool>
    requires id in s.tasks && DepsRegistered(s)
  {
    var w := s.tasks[id];
    match WalkDeps(s.tasks, w.deps)
    case Blocked => None
    case SkipNow => Some(false)
    case AllOk => if MutexesFree(s.held, w.mutexes) then Some(true) else None
  }

  /** The outer loop of `get_first_ready_task_id_`, from queue position `from`. */
  function ScanFrom(s: State, from: nat): (r: Option<(nat, bool)>)
    requires QueueRegistered(s) && DepsRegistered(s)
    requires from <= |s.queue|
    ensures r.None? <==> forall i :: from <= i < |s.queue| ==> Readiness(s, s.queue[i]).None?
    ensures r.Some? ==> from <= r.value.0 < |s.queue| && Readiness(s, s.queue[r.value.0]) == Some(r.value.1)
                        && forall j :: from <= j < r.value.0 ==> Readiness(s, s.queue[j]).None?
    decreases |s.queue| - from
  {
    if from == |s.queue| then None
    else
      match Readiness(s, s.queue[from])
      case Some(canRun) => Some((from, canRun))
      case None => ScanFrom(s, from + 1)
  }

  /** `get_first_ready_task_id_`: the first queued task that can be skipped or
      run, with whether it can be run. */
  function GetFirstReady(s: State): (r: Option<(string, bool)>)
    requires QueueRegistered(s) && DepsRegistered(s)
  {
    match ScanFrom(s, 0)
    case None => None
    case Some((i, canRun)) => Some((s.queue[i], canRun))
  }

  /** The scan returns the first queue entry the scan can act on, and nothing
      only when no entry qualifies. */
  lemma GetFirstReadyIsFirst(s: State)
    requires QueueRegistered(s) && DepsRegistered(s)
    ensures GetFirstReady(s).None? <==> forall i :: 0 <= i < |s.queue| ==> Readiness(s, s.queue[i]).None?
    ensures GetFirstReady(s).Some? ==>
              exists i :: 0 <= i < |s.queue| && s.queue[i] == GetFirstReady(s).value.0
                          && Readiness(s, s.queue[i]) == Some(GetFirstReady(s).value.1)
                          && forall j :: 0 <= j < i ==> Readiness(s, s.queue[j]).None?
  {
    var r := ScanFrom(s, 0);
    if r.Some? {
      assert s.queue[r.value.0] == GetFirstReady(s).value.0;
    }
  }

  // ---------------------------------------------------------------------------
  // process_queue: the dispatch step

  /** Sets every mutex in `ms` to `v`, as the `for m in ...mutexes` loops do. */
  function SetAll(held: map<string, bool>, ms: seq<string>, v: bool): (r: map<string, bool>)
    ensures forall m :: m in ms ==> m in r && r[m] == v
    ensures forall m :: m !in ms ==> (m in r <==> m in held) && (m in held ==> r[m] == held[m])
    decreases |ms|
  {
    if |ms| == 0 then held
    else
      assert forall m :: m in ms ==> m == ms[0] || m in ms[1..];
      SetAll(held[ms[0] := v], ms[1..], v)
  }

  /** The `else` branch of `process_queue`: remove the selected id from the
      queue, take a slot, hold the task's mutexes if it is to be run and hand
      the wrapper to the executor. */
  function StartTask(s: State, id: string, canRun: bool): (r: State)
    requires id in s.queue && id in s.tasks
    ensures r.running == s.running + 1 && |r.queue| == |s.queue| - 1
    ensures r.jobs == s.jobs + [Job(id, s.tasks[id].serial, s.tasks[id].deps, s.tasks[id].mutexes, canRun, Started, None)]
    ensures r.tasks == s.tasks
    ensures canRun ==> forall m :: m in s.tasks[id].mutexes ==> Holds(r.held, m)
    ensures forall m :: !canRun || m !in s.tasks[id].mutexes ==> Holds(r.held, m) == Holds(s.held, m)
  {
    var w := s.tasks[id];
    var held := if canRun then SetAll(s.held, w.mutexes, true) else s.held;
    s.(queue := Seqs.RemoveFirst(s.queue, id), running := s.running + 1, held := held,
       jobs := s.jobs + [Job(id, w.serial, w.deps, w.mutexes, canRun, Started, None)])
  }

  /** One pass of `process_queue` that starts a task: it acts only when a
      worker slot is free and the queue is non-empty, and then only when the
      scan finds a task; otherwise the processor waits (`None`). */
  function Dispatch(s: State): (r: Option<State>)
    requires QueueRegistered(s) && DepsRegistered(s)
    ensures r.Some? ==> !s.processorExited && s.running < s.maxWorkers && |s.queue| > 0
    ensures r.Some? <==> !s.processorExited && s.running < s.maxWorkers
                         && exists i :: 0 <= i < |s.queue| && Readiness(s, s.queue[i]).Some?
  {
    if s.processorExited || !(s.running < s.maxWorkers && |s.queue| > 0) then None
    else
      match GetFirstReady(s)
      case None => None
      case Some((id, canRun)) =>
        assert id in s.queue && id in s.tasks by { GetFirstReadyIsFirst(s); }
        Some(StartTask(s, id, canRun))
  }

  /** Queue position `i` holds the first task the scan can act on. */
  predicate FirstActionable(s: State, i: int)
    requires QueueRegistered(s) && DepsRegistered(s)
  {
    0 <= i < |s.queue| && Readiness(s, s.queue[i]).Some?
    && forall j :: 0 <= j < i ==> Readiness(s, s.queue[j]).None?
  }

  /** The dispatched task is exactly the one the scan selected: it leaves the
      queue at its position, everything else keeps its order, and it is run
      exactly when the scan found it ready rather than skippable. */
  lemma DispatchRemovesSelected(s: State)
    requires QueueRegistered(s) && DepsRegistered(s)
    requires Dispatch(s).Some?
    ensures exists i :: FirstActionable(s, i)
                        && Dispatch(s) == Some(StartTask(s, s.queue[i], Readiness(s, s.queue[i]).value))
                        && Dispatch(s).value.queue == s.queue[..i] + s.queue[i + 1..]
  {
    var r := ScanFrom(s, 0);
    var i := r.value.0;
    assert FirstActionable(s, i);
    forall k | 0 <= k < i ensures s.queue[k] != s.queue[i] {
      assert Readiness(s, s.queue[k]).None?;
    }
    Seqs.RemoveFirstAt(s.queue, i);
  }

  // ---------------------------------------------------------------------------
  // task_run_inner

  /** Data of every registered task, for building a job's dependency dict. */
  function DataOf(tasks: map<string, Wrapper>): (r: map<string, Value>)
    ensures forall id :: id in tasks ==> id in r && r[id] == tasks[id].data
  {
    map id | id in tasks :: tasks[id].data
  }

  /** The `data` dict built at the top of `task_run_inner` for a runnable task. */
  function DependencyContext(tasks: map<string, Wrapper>, deps: seq<string>): Context
    requires forall d :: d in deps ==> d in tasks
  {
    BuildContext([], deps, DataOf(tasks))
  }

  /** The skip branch's loop: `reason` ends up naming the last dependency that
      finished non-'ok'; `None` stands for the variable never being bound. */
  function SkipReasonLoop(tasks: map<string, Wrapper>, deps: seq<string>, reason: Option<string>): (r: Option<string>)
    requires forall d :: d in deps ==> d in tasks
    ensures (forall i :: 0 <= i < |deps| ==> !FinishedNotOkay(tasks[deps[i]])) ==> r == reason
    ensures (exists i :: 0 <= i < |deps| && FinishedNotOkay(tasks[deps[i]])) ==>
              exists i :: 0 <= i < |deps| && r == Some(deps[i]) && FinishedNotOkay(tasks[deps[i]])
                          && forall j :: i < j < |deps| ==> !FinishedNotOkay(tasks[deps[j]])
    decreases |deps|
  {
    if |deps| == 0 then reason
    else
      var reason' := if FinishedNotOkay(tasks[deps[0]]) then Some(deps[0]) else reason;
      var r := SkipReasonLoop(tasks, deps[1..], reason');
      assert forall i :: 0 < i < |deps| ==> deps[i] == deps[1..][i - 1];
      assert (exists i :: 0 <= i < |deps| && FinishedNotOkay(tasks[deps[i]])) ==>
               exists i :: 0 <= i < |deps| && r == Some(deps[i]) && FinishedNotOkay(tasks[deps[i]])
                           && forall j :: i < j < |deps| ==> !FinishedNotOkay(tasks[deps[j]]) by {
        if exists i :: 0 <= i < |deps[1..]| && FinishedNotOkay(tasks[deps[1..][i]]) {
          var i :| 0 <= i < |deps[1..]| && r == Some(deps[1..][i]) && FinishedNotOkay(tasks[deps[1..][i]])
                   && forall j :: i < j < |deps[1..]| ==> !FinishedNotOkay(tasks[deps[1..][j]]);
          assert r == Some(deps[i + 1]);
          assert forall j :: i + 1 < j < |deps| ==> deps[j] == deps[1..][j - 1];
        } else {
          assert forall j :: 0 < j < |deps| ==> !FinishedNotOkay(tasks[deps[j]]);
        }
      }
      r
  }

  /** The top of `task_run_inner`: a task that can be run reads the data of
      its dependencies from the registry, and a skipped one looks for its
      reason there. */
  function ReadInput(tasks: map<string, Wrapper>, job: Job): (i: JobInput)
    requires forall d :: d in job.deps ==> d in tasks
    ensures i.RunInput? <==> job.canBeRun
  {
    if job.canBeRun then RunInput(DependencyContext(tasks, job.deps))
    else SkipInput(SkipReasonLoop(tasks, job.deps, None))
  }

  predicate CanBegin(s: State, k: nat) {
    k < |s.jobs| && s.jobs[k].phase == Started && s.jobs[k].input.None?
    && forall d :: d in s.jobs[k].deps ==> d in s.tasks
  }

  /** The worker of job `k` starts and reads its input. Nothing but that job's
      input changes; in particular the registry is only read. */
  function Begin(s: State, k: nat): (r: State)
    requires CanBegin(s, k)
    ensures r.tasks == s.tasks && r.queue == s.queue && r.held == s.held && r.running == s.running
    ensures |r.jobs| == |s.jobs| && forall j :: 0 <= j < |s.jobs| && j != k ==> r.jobs[j] == s.jobs[j]
    ensures r.jobs[k] == s.jobs[k].(input := r.jobs[k].input) && r.jobs[k].input.Some?
    ensures r.jobs[k].input.value.RunInput? <==> s.jobs[k].canBeRun
  {
    var job := s.jobs[k];
    s.(jobs := s.jobs[k := job.(input := Some(ReadInput(s.tasks, job)))])
  }

  /** The status, data and reason the worker computes from what it read, or
      `None` when the skip branch dies on its unbound `reason`. The task body
      `run` is called only for a task that can be run. */
  function JobOutcome(job: Job, run: Context -> RunResult): (o: Option<Outcome>)
    requires job.input.Some?
    ensures job.input.value.RunInput? ==> o.Some? && o.value.status in {Succeeded, Failed}
    ensures job.input.value.SkipInput? && o.Some? ==> o.value.status == Skipped && o.value.data == EmptyData
    ensures job.input.value.SkipInput? ==> (o.None? <==> job.input.value.reason.None?)
  {
    match job.input.value
    case RunInput(ctx) => Some(Execute(run(ctx)))
    case SkipInput(None) => None
    case SkipInput(Some(d)) => Some(Outcome(Skipped, EmptyData, Some(SkipReason(d))))
  }

  /** What a started worker computes is decided by the registry at its start:
      `Execute` of the task body on the dependency data then, or a skip that
      names the last dependency then finished other than 'ok', or a crash when
      none had. */
  lemma BeginDecidesOutcome(s: State, k: nat, run: Context -> RunResult)
    requires CanBegin(s, k)
    ensures var job := s.jobs[k];
            var o := JobOutcome(Begin(s, k).jobs[k], run);
            && (job.canBeRun ==> o == Some(Execute(run(DependencyContext(s.tasks, job.deps)))))
            && (!job.canBeRun && o.Some? ==>
                  o.value.status == Skipped && o.value.data == EmptyData
                  && exists i :: 0 <= i < |job.deps| && FinishedNotOkay(s.tasks[job.deps[i]])
                                 && o.value.reason == Some(SkipReason(job.deps[i]))
                                 && forall j :: i < j < |job.deps| ==> !FinishedNotOkay(s.tasks[job.deps[j]]))
            && (!job.canBeRun ==> (o.None? <==> forall i :: 0 <= i < |job.deps| ==> !FinishedNotOkay(s.tasks[job.deps[i]])))
  {
    var job := s.jobs[k];
    var r := Begin(s, k);
    assert r.jobs[k].input == Some(ReadInput(s.tasks, job));
  }

  /** Two wrappers for the same submission, possibly at different points of
      its life. */
  predicate SameSubmission(a: Wrapper, b: Wrapper) {
    a.id == b.id && a.serial == b.serial && a.description == b.description && a.work == b.work
    && a.deps == b.deps && a.mutexes == b.mutexes
  }

  /** `set_status` followed by `set_done`. */
  function Complete(w: Wrapper, o: Outcome): Wrapper {
    w.(status := o.status, reason := o.reason, completed := true, data := o.data)
  }

  predicate CanFinish(s: State, k: nat) {
    k < |s.jobs| && s.jobs[k].phase == Started && s.jobs[k].input.Some?
  }

  /** The rest of `task_run_inner` up to and including `set_done`: job `k`
      computes its outcome from what it read at its start (running the task
      body `run` when it can be run) and writes it into its own wrapper, under
      the wrapper's lock. When the registry now holds a newer wrapper under the
      same id, the write goes to the orphaned one and the registry is left as
      is. */
  function Finish(s: State, k: nat, run: Context -> RunResult): (r: State)
    requires CanFinish(s, k)
    ensures r.queue == s.queue && r.held == s.held && r.running == s.running && |r.jobs| == |s.jobs|
    ensures forall id :: id in s.tasks && id != s.jobs[k].id ==> id in r.tasks && r.tasks[id] == s.tasks[id]
    ensures r.tasks.Keys == s.tasks.Keys
    ensures forall id :: id in r.tasks ==> SameSubmission(r.tasks[id], s.tasks[id])
    ensures forall j :: 0 <= j < |s.jobs| && j != k ==> r.jobs[j] == s.jobs[j]
    ensures r.jobs[k] == s.jobs[k].(phase := r.jobs[k].phase) && r.jobs[k].phase != Started
    ensures r.jobs[k].phase == Crashed <==> JobOutcome(s.jobs[k], run).None?
    ensures JobOutcome(s.jobs[k], run).Some? && s.jobs[k].id in s.tasks && s.tasks[s.jobs[k].id].serial == s.jobs[k].serial ==>
              r.tasks == s.tasks[s.jobs[k].id := Complete(s.tasks[s.jobs[k].id], JobOutcome(s.jobs[k], run).value)]
    ensures !(s.jobs[k].id in s.tasks && s.tasks[s.jobs[k].id].serial == s.jobs[k].serial) ==> r.tasks == s.tasks
    // a crash ends the worker before `set_status`/`set_done`: no wrapper is written
    ensures JobOutcome(s.jobs[k], run).None? ==> r.tasks == s.tasks
  {
    var job := s.jobs[k];
    match JobOutcome(job, run)
    case None => s.(jobs := s.jobs[k := job.(phase := Crashed)])
    case Some(o) =>
      var tasks :=
        if job.id in s.tasks && s.tasks[job.id].serial == job.serial
        then s.tasks[job.id := Complete(s.tasks[job.id], o)]
        else s.tasks;
      s.(tasks := tasks, jobs := s.jobs[k := job.(phase := Finished)])
  }

  predicate CanRelease(s: State, k: nat) {
    k < |s.jobs| && s.jobs[k].phase == Finished && s.running > 0
  }

  /** The guarded section that ends `task_run_inner`: one slot fewer in use,
      and the job's mutexes released when it was run. */
  function Release(s: State, k: nat): (r: State)
    requires CanRelease(s, k)
    ensures r.running == s.running - 1
    ensures r.jobs == s.jobs[..k] + s.jobs[k + 1..]
    ensures r.tasks == s.tasks && r.queue == s.queue
    ensures s.jobs[k].canBeRun ==> forall m :: m in s.jobs[k].mutexes ==> !Holds(r.held, m)
    ensures !s.jobs[k].canBeRun ==> r.held == s.held
    ensures forall m :: m !in s.jobs[k].mutexes ==> Holds(r.held, m) == Holds(s.held, m)
  {
    var job := s.jobs[k];
    s.(running := s.running - 1,
       held := if job.canBeRun then SetAll(s.held, job.mutexes, false) else s.held,
       jobs := s.jobs[..k] + s.jobs[k + 1..])
  }

  // ---------------------------------------------------------------------------
  // done / barrier

  /** `done` raises the terminate flag before waiting on the barrier. */
  function RequestTerminate(s: State): (r: State)
    ensures r.terminate
    ensures r.tasks == s.tasks && r.queue == s.queue && r.held == s.held && r.running == s.running
    ensures r.jobs == s.jobs && r.processorExited == s.processorExited && r.maxWorkers == s.maxWorkers
  {
    s.(terminate := true)
  }

  /** `process_queue` returns once it is told to terminate and the queue is empty. */
  function ProcessorExit(s: State): (r: Option<State>)
    ensures r.Some? <==> s.terminate && |s.queue| == 0 && !(s.running < s.maxWorkers && |s.queue| > 0)
  {
    if s.terminate && |s.queue| == 0 then Some(s.(processorExited := true)) else None
  }

  /** After `done` has raised the flag, the queue processor exits exactly
      when the queue has drained, and exiting changes nothing else. */
  lemma TerminateThenExit(s: State)
    ensures ProcessorExit(RequestTerminate(s)).Some? <==> |s.queue| == 0
    ensures ProcessorExit(RequestTerminate(s)).Some? ==>
              ProcessorExit(RequestTerminate(s)).value == s.(terminate := true, processorExited := true)
  {
  }

  /** `barrier` returns exactly in these states. */
  predicate Quiescent(s: State) {
    s.running == 0 && |s.queue| == 0
  }
}
