/** The task life cycle when every submitted id is new.

    Under that discipline each registered task is in exactly one place: queued,
    held by a job that is running it, held by a job that has written its
    result, or done. A completed task's status, reason and data never change
    again; a skipped task has a dependency that finished non-'ok'; a task that
    was run had all its dependencies finish 'ok'; no worker ever dies on the
    skip branch; `barrier` returns only when every task has completed; and
    with no task in flight a non-empty queue always has a task to dispatch. */
module SchedulerLifecycle {
  import opened Wrappers
  import opened Tasks
  import opened Scheduler
  import opened SchedulerInvariants
  import Seqs

  /** The job at `j` belongs to the registered wrapper of its id and agrees
      with where that wrapper is in its life. */
  ghost predicate JobTracksWrapper(s: State, j: int)
    requires Registered(s) && 0 <= j < |s.jobs|
  {
    var job := s.jobs[j];
    job.id in s.tasks
    && s.tasks[job.id].serial == job.serial
    && job.deps == s.tasks[job.id].deps
    && job.mutexes == s.tasks[job.id].mutexes
    && job.id !in s.queue
    && job.phase != Crashed
    && (job.phase == Started <==> !s.tasks[job.id].completed)
    && (job.canBeRun ==> forall d :: d in job.deps ==> HasCompletedOkay(s.tasks[d]))
    && (!job.canBeRun ==> exists d :: d in job.deps && FinishedNotOkay(s.tasks[d]))
    && InputJustified(s.tasks, job)
  }

  /** What a started worker has read agrees with its dispatch: dependency
      data only for a task it runs, and for a skipped task a reason naming one
      of its dependencies that finished other than 'ok'. */
  ghost predicate InputJustified(tasks: map<string, Wrapper>, job: Job)
    requires forall d :: d in job.deps ==> d in tasks
  {
    match job.input
    case None => true
    case Some(RunInput(_)) => job.canBeRun
    case Some(SkipInput(reason)) =>
      !job.canBeRun && reason.Some? && reason.value in job.deps && FinishedNotOkay(tasks[reason.value])
  }

  ghost predicate InFlight(s: State, id: string) {
    exists j :: 0 <= j < |s.jobs| && s.jobs[j].id == id
  }

  /** What a registered wrapper's status says about its dependencies, and
      where an incomplete one is. */
  ghost predicate WrapperConsistent(s: State, id: string)
    requires DepsRegistered(s) && id in s.tasks
  {
    var w := s.tasks[id];
    (w.completed <==> w.status != NotAvailable)
    && (w.status == Skipped ==> exists d :: d in w.deps && FinishedNotOkay(s.tasks[d]))
    && (w.completed && w.status != Skipped ==> forall d :: d in w.deps ==> HasCompletedOkay(s.tasks[d]))
    && (!w.completed ==> id in s.queue || InFlight(s, id))
    && (forall d :: d in w.deps ==> s.tasks[d].serial < w.serial)
  }

  ghost predicate Tidy(s: State) {
    Inv(s)
    && Seqs.NoDup(s.queue)
    && (forall q :: q in s.queue ==> !s.tasks[q].completed)
    && (forall j :: 0 <= j < |s.jobs| ==> JobTracksWrapper(s, j))
    && (forall i, j :: 0 <= i < j < |s.jobs| ==> s.jobs[i].id != s.jobs[j].id)
    && (forall id :: id in s.tasks ==> WrapperConsistent(s, id))
  }

  /** Steps of the duplicate-free discipline: every submitted id is new. */
  ghost predicate FreshStep(s: State, step: Step) {
    Enabled(s, step) && (step.SubmitStep? ==> step.sub.id !in s.tasks)
  }

  lemma InitTidy(maxWorkers: nat)
    ensures Tidy(Init(maxWorkers))
  {
    InitInv(maxWorkers);
  }

  /** Nothing registered disappears or changes what was submitted, and a
      completed wrapper stays exactly as it is. */
  ghost predicate Settled(s: State, r: State) {
    (forall id :: id in s.tasks ==> id in r.tasks && SameSubmission(r.tasks[id], s.tasks[id]))
    && (forall id :: id in s.tasks && s.tasks[id].completed ==> r.tasks[id] == s.tasks[id])
  }

  // ---------------------------------------------------------------------------
  // submit

  /** A fresh id enters the queue once; nothing else changes there. */
  lemma SubmitQueue(s: State, sub: Submission)
    requires QueueRegistered(s) && Seqs.NoDup(s.queue) && sub.id !in s.tasks && Submit(s, sub).Ok?
    ensures Seqs.NoDup(Submit(s, sub).value.queue)
    ensures forall q :: q in Submit(s, sub).value.queue <==> q in s.queue || q == sub.id
  {
    var r := Submit(s, sub).value;
    assert sub.id !in s.queue;
    var k := SubmitPosition(s, sub);
    InsertedAt(s.queue, k, sub.id, r.queue);
  }

  /** Where `submit` puts the new id. */
  lemma SubmitPosition(s: State, sub: Submission) returns (k: nat)
    requires QueueRegistered(s) && Submit(s, sub).Ok?
    ensures k <= |s.queue| && Submit(s, sub).value.queue == s.queue[..k] + [sub.id] + s.queue[k..]
  {
    var r := Submit(s, sub).value;
    if |sub.mutexes| > 0 {
      k :| InsertedBeforeFirstFree(s.queue, sub.id, r.tasks, r.queue, k);
    } else {
      k := |s.queue|;
      assert s.queue[..k] + [sub.id] + s.queue[k..] == r.queue;
    }
  }

  lemma InsertedAt(xs: seq<string>, k: nat, x: string, r: seq<string>)
    requires k <= |xs| && r == xs[..k] + [x] + xs[k..] && Seqs.NoDup(xs) && x !in xs
    ensures Seqs.NoDup(r) && forall q :: q in r <==> q in xs || q == x
  {
    Seqs.NoDupInsert(xs, k, x);
    Seqs.InsertMembers(xs, k, x);
  }

  lemma SubmitJobs(s: State, sub: Submission, r: State)
    requires Tidy(s) && sub.id !in s.tasks && Registered(r)
    requires r.tasks == s.tasks[sub.id := NewWrapper(s, sub)] && r.jobs == s.jobs
    requires forall q :: q in r.queue <==> q in s.queue || q == sub.id
    ensures forall j :: 0 <= j < |r.jobs| ==> JobTracksWrapper(r, j)
  {
    forall j | 0 <= j < |r.jobs| ensures JobTracksWrapper(r, j) {
      assert JobTracksWrapper(s, j);
      assert s.jobs[j].id != sub.id;
      assert forall d :: d in s.jobs[j].deps ==> r.tasks[d] == s.tasks[d];
    }
  }

  lemma SubmitWrappers(s: State, sub: Submission, r: State)
    requires Tidy(s) && sub.id !in s.tasks && Registered(r)
    requires forall d :: d in sub.deps ==> d in s.tasks
    requires r.tasks == s.tasks[sub.id := NewWrapper(s, sub)] && r.jobs == s.jobs
    requires forall q :: q in r.queue <==> q in s.queue || q == sub.id
    ensures forall id :: id in r.tasks ==> WrapperConsistent(r, id)
  {
    var w := NewWrapper(s, sub);
    forall id | id in r.tasks ensures WrapperConsistent(r, id) {
      if id != sub.id {
        assert WrapperConsistent(s, id);
        assert r.tasks[id] == s.tasks[id];
        assert forall d :: d in s.tasks[id].deps ==> r.tasks[d] == s.tasks[d];
        if !s.tasks[id].completed && id !in s.queue {
          var j :| 0 <= j < |s.jobs| && s.jobs[j].id == id;
          assert r.jobs[j].id == id;
        }
      } else {
        assert forall d :: d in w.deps ==> r.tasks[d].serial < w.serial;
      }
    }
  }

  lemma SubmitTidy(s: State, sub: Submission)
    requires Tidy(s) && sub.id !in s.tasks && Submit(s, sub).Ok?
    ensures Tidy(Submit(s, sub).value)
  {
    SubmitKeepsInv(s, sub);
    SubmitQueueTidy(s, sub);
    SubmitJobsTidy(s, sub);
    SubmitWrappersTidy(s, sub);
    TidyOf(Submit(s, sub).value);
  }

  /** Submitting a new id only adds its wrapper to the registry. */
  lemma SubmitSettled(s: State, sub: Submission)
    requires Registered(s) && sub.id !in s.tasks && Submit(s, sub).Ok?
    ensures Settled(s, Submit(s, sub).value)
  {
    assert Submit(s, sub).value.tasks == s.tasks[sub.id := NewWrapper(s, sub)];
  }

  lemma SubmitQueueTidy(s: State, sub: Submission)
    requires Tidy(s) && sub.id !in s.tasks && Submit(s, sub).Ok?
    ensures QueueTidy(Submit(s, sub).value)
  {
    var r := Submit(s, sub).value;
    SubmitQueue(s, sub);
    assert r.tasks == s.tasks[sub.id := NewWrapper(s, sub)];
  }

  lemma SubmitJobsTidy(s: State, sub: Submission)
    requires Tidy(s) && sub.id !in s.tasks && Submit(s, sub).Ok?
    ensures JobsTidy(Submit(s, sub).value)
  {
    var r := Submit(s, sub).value;
    SubmitKeepsInv(s, sub);
    SubmitQueue(s, sub);
    assert r.tasks == s.tasks[sub.id := NewWrapper(s, sub)] && r.jobs == s.jobs;
    SubmitJobs(s, sub, r);
  }

  lemma SubmitWrappersTidy(s: State, sub: Submission)
    requires Tidy(s) && sub.id !in s.tasks && Submit(s, sub).Ok?
    ensures WrappersTidy(Submit(s, sub).value)
  {
    var r := Submit(s, sub).value;
    SubmitKeepsInv(s, sub);
    SubmitQueue(s, sub);
    assert r.tasks == s.tasks[sub.id := NewWrapper(s, sub)] && r.jobs == s.jobs;
    SubmitWrappers(s, sub, r);
  }

  // ---------------------------------------------------------------------------
  // dispatch

  /** The selected id leaves the queue and nothing else does. */
  lemma StartTaskQueue(s: State, i: nat)
    requires Tidy(s) && FirstActionable(s, i)
    ensures Seqs.NoDup(StartTask(s, s.queue[i], Readiness(s, s.queue[i]).value).queue)
    ensures forall q :: q in StartTask(s, s.queue[i], Readiness(s, s.queue[i]).value).queue
                        <==> q in s.queue && q != s.queue[i]
  {
    Seqs.RemoveFirstNoDup(s.queue, i);
  }

  /** The new job is justified by what the scan saw. */
  lemma StartTaskNewJob(s: State, i: nat)
    requires QueueRegistered(s) && DepsRegistered(s) && FirstActionable(s, i) && !s.tasks[s.queue[i]].completed
    requires Registered(StartTask(s, s.queue[i], Readiness(s, s.queue[i]).value))
    requires s.queue[i] !in StartTask(s, s.queue[i], Readiness(s, s.queue[i]).value).queue
    ensures JobTracksWrapper(StartTask(s, s.queue[i], Readiness(s, s.queue[i]).value), |s.jobs|)
  {
    var id := s.queue[i];
    var canRun := Readiness(s, id).value;
    var w := s.tasks[id];
    var r := StartTask(s, id, canRun);
    assert r.jobs[|s.jobs|] == Job(id, w.serial, w.deps, w.mutexes, canRun, Started, None);
    var walk := WalkDeps(s.tasks, w.deps);
    if canRun {
      assert walk == AllOk;
      forall d | d in w.deps ensures HasCompletedOkay(s.tasks[d]) {
        var k :| 0 <= k < |w.deps| && w.deps[k] == d;
      }
    } else {
      assert walk == SkipNow;
      var k :| 0 <= k < |w.deps| && FinishedNotOkay(s.tasks[w.deps[k]])
               && forall j :: 0 <= j < k ==> HasCompletedOkay(s.tasks[w.deps[j]]);
      assert w.deps[k] in w.deps;
    }
  }

  lemma StartTaskOldJobs(s: State, i: nat)
    requires Tidy(s) && FirstActionable(s, i)
    requires Registered(StartTask(s, s.queue[i], Readiness(s, s.queue[i]).value))
    requires forall q :: q in StartTask(s, s.queue[i], Readiness(s, s.queue[i]).value).queue ==> q in s.queue
    ensures forall j :: 0 <= j < |s.jobs| ==> JobTracksWrapper(StartTask(s, s.queue[i], Readiness(s, s.queue[i]).value), j)
    ensures forall a, b :: 0 <= a < b < |s.jobs| + 1 ==>
              StartTask(s, s.queue[i], Readiness(s, s.queue[i]).value).jobs[a].id
              != StartTask(s, s.queue[i], Readiness(s, s.queue[i]).value).jobs[b].id
  {
    var r := StartTask(s, s.queue[i], Readiness(s, s.queue[i]).value);
    var n := |s.jobs|;
    assert forall j :: 0 <= j < n ==> r.jobs[j] == s.jobs[j];
    assert r.jobs[n].id == s.queue[i];
    forall j | 0 <= j < n ensures JobTracksWrapper(r, j) {
      assert JobTracksWrapper(s, j);
    }
    forall a, b | 0 <= a < b < n + 1 ensures r.jobs[a].id != r.jobs[b].id {
      if b == n {
        assert JobTracksWrapper(s, a);
      }
    }
  }

  lemma StartTaskWrappers(s: State, i: nat)
    requires Tidy(s) && FirstActionable(s, i)
    requires Registered(StartTask(s, s.queue[i], Readiness(s, s.queue[i]).value))
    requires forall q :: q in StartTask(s, s.queue[i], Readiness(s, s.queue[i]).value).queue
                         <==> q in s.queue && q != s.queue[i]
    ensures forall x :: x in s.tasks ==> WrapperConsistent(StartTask(s, s.queue[i], Readiness(s, s.queue[i]).value), x)
  {
    var id := s.queue[i];
    var r := StartTask(s, id, Readiness(s, id).value);
    var n := |s.jobs|;
    assert forall j :: 0 <= j < n ==> r.jobs[j] == s.jobs[j];
    assert r.jobs[n].id == id;
    forall x | x in r.tasks ensures WrapperConsistent(r, x) {
      assert WrapperConsistent(s, x);
      if !s.tasks[x].completed && x !in r.queue {
        if x == id {
          assert r.jobs[n].id == x;
        } else {
          var j :| 0 <= j < |s.jobs| && s.jobs[j].id == x;
          assert r.jobs[j].id == x;
        }
      }
      WrapperConsistentMoved(s, r, x);
    }
  }

  /** Consistency of a wrapper survives a step that leaves the registry
      alone and keeps an incomplete task queued or in flight. */
  lemma WrapperConsistentMoved(s: State, r: State, x: string)
    requires DepsRegistered(s) && x in s.tasks && r.tasks == s.tasks
    requires WrapperConsistent(s, x)
    requires !s.tasks[x].completed ==> x in r.queue || InFlight(r, x)
    ensures DepsRegistered(r) && WrapperConsistent(r, x)
  {
  }

  lemma StartTaskTidy(s: State, i: nat)
    requires Tidy(s) && FirstActionable(s, i) && s.running < s.maxWorkers
    ensures Tidy(StartTask(s, s.queue[i], Readiness(s, s.queue[i]).value))
  {
    var r := StartTask(s, s.queue[i], Readiness(s, s.queue[i]).value);
    StartTaskInv(s, i);
    StartTaskQueueTidy(s, i);
    StartTaskJobsTidy(s, i);
    StartTaskWrappersTidy(s, i);
    TidyOf(r);
  }

  lemma StartTaskInv(s: State, i: nat)
    requires Inv(s) && FirstActionable(s, i) && s.running < s.maxWorkers
    ensures Inv(StartTask(s, s.queue[i], Readiness(s, s.queue[i]).value))
  {
    var id := s.queue[i];
    var canRun := Readiness(s, id).value;
    if canRun { ReadyMutexesFree(s, id); }
    StartTaskKeepsInv(s, id, canRun);
  }

  lemma StartTaskQueueTidy(s: State, i: nat)
    requires Tidy(s) && FirstActionable(s, i)
    ensures QueueTidy(StartTask(s, s.queue[i], Readiness(s, s.queue[i]).value))
  {
    StartTaskQueue(s, i);
  }

  lemma StartTaskJobsTidy(s: State, i: nat)
    requires Tidy(s) && FirstActionable(s, i) && s.running < s.maxWorkers
    ensures JobsTidy(StartTask(s, s.queue[i], Readiness(s, s.queue[i]).value))
  {
    var id := s.queue[i];
    var r := StartTask(s, id, Readiness(s, id).value);
    StartTaskInv(s, i);
    assert !s.tasks[id].completed;
    StartTaskQueue(s, i);
    StartTaskNewJob(s, i);
    StartTaskOldJobs(s, i);
    assert |r.jobs| == |s.jobs| + 1;
  }

  lemma StartTaskWrappersTidy(s: State, i: nat)
    requires Tidy(s) && FirstActionable(s, i) && s.running < s.maxWorkers
    ensures WrappersTidy(StartTask(s, s.queue[i], Readiness(s, s.queue[i]).value))
  {
    StartTaskInv(s, i);
    StartTaskQueue(s, i);
    StartTaskWrappers(s, i);
  }

  /** The queue part of `Tidy`. */
  ghost predicate QueueTidy(r: State) {
    Seqs.NoDup(r.queue) && forall q :: q in r.queue ==> q in r.tasks && !r.tasks[q].completed
  }

  /** The job part of `Tidy`. */
  ghost predicate JobsTidy(r: State) {
    Registered(r)
    && (forall j :: 0 <= j < |r.jobs| ==> JobTracksWrapper(r, j))
    && (forall a, b :: 0 <= a < b < |r.jobs| ==> r.jobs[a].id != r.jobs[b].id)
  }

  /** The wrapper part of `Tidy`. */
  ghost predicate WrappersTidy(r: State) {
    DepsRegistered(r) && forall x :: x in r.tasks ==> WrapperConsistent(r, x)
  }

  /** The conjuncts of `Tidy`, one by one. */
  lemma TidyOf(r: State)
    requires Inv(r) && QueueTidy(r) && JobsTidy(r) && WrappersTidy(r)
    ensures Tidy(r)
  {
  }

  lemma DispatchTidy(s: State)
    requires Tidy(s) && Dispatch(s).Some?
    ensures Tidy(Dispatch(s).value)
    ensures Settled(s, Dispatch(s).value)
  {
    DispatchRemovesSelected(s);
    var i :| FirstActionable(s, i) && Dispatch(s) == Some(StartTask(s, s.queue[i], Readiness(s, s.queue[i]).value))
             && Dispatch(s).value.queue == s.queue[..i] + s.queue[i + 1..];
    StartTaskTidy(s, i);
    StartTaskSettled(s, s.queue[i], Readiness(s, s.queue[i]).value);
  }

  /** Starting a task leaves the registry as it is. */
  lemma StartTaskSettled(s: State, id: string, canRun: bool)
    requires id in s.queue && id in s.tasks
    ensures Settled(s, StartTask(s, id, canRun))
  {
  }

  // ---------------------------------------------------------------------------
  // begin

  /** A worker of this discipline that starts on a skipped task always finds
      a reason. */
  lemma BeginJustified(s: State, k: nat)
    requires Tidy(s) && k < |s.jobs| && s.jobs[k].phase == Started && s.jobs[k].input.None?
    ensures InputJustified(Begin(s, k).tasks, Begin(s, k).jobs[k])
  {
    var job := s.jobs[k];
    assert JobTracksWrapper(s, k);
    var r := Begin(s, k);
    assert r.jobs[k].input == Some(ReadInput(s.tasks, job));
    if !job.canBeRun {
      var d :| d in job.deps && FinishedNotOkay(s.tasks[d]);
      var i :| 0 <= i < |job.deps| && job.deps[i] == d;
      assert FinishedNotOkay(s.tasks[job.deps[i]]);
    }
  }

  lemma BeginJobsTidy(s: State, k: nat)
    requires Tidy(s) && k < |s.jobs| && s.jobs[k].phase == Started && s.jobs[k].input.None?
    ensures Inv(Begin(s, k))
    ensures forall j :: 0 <= j < |Begin(s, k).jobs| ==> JobTracksWrapper(Begin(s, k), j)
    ensures forall a, b :: 0 <= a < b < |Begin(s, k).jobs| ==> Begin(s, k).jobs[a].id != Begin(s, k).jobs[b].id
  {
    var r := Begin(s, k);
    BeginKeepsInv(s, k);
    forall j | 0 <= j < |r.jobs| ensures JobTracksWrapper(r, j) {
      assert JobTracksWrapper(s, j);
      if j == k {
        BeginJustified(s, k);
      }
    }
    forall a, b | 0 <= a < b < |r.jobs| ensures r.jobs[a].id != r.jobs[b].id {
      assert r.jobs[a].id == s.jobs[a].id && r.jobs[b].id == s.jobs[b].id;
    }
  }

  /** Starting a worker keeps the life-cycle invariant and only reads the
      registry. */
  lemma BeginTidy(s: State, k: nat)
    requires Tidy(s) && k < |s.jobs| && s.jobs[k].phase == Started && s.jobs[k].input.None?
    ensures Tidy(Begin(s, k))
    ensures Settled(s, Begin(s, k))
  {
    var r := Begin(s, k);
    BeginJobsTidy(s, k);
    forall x | x in r.tasks ensures WrapperConsistent(r, x) {
      assert WrapperConsistent(s, x);
      if !s.tasks[x].completed && x !in s.queue {
        var j :| 0 <= j < |s.jobs| && s.jobs[j].id == x;
        assert r.jobs[j].id == x;
      }
      WrapperConsistentTransfer(s, r, x);
    }
  }

  // ---------------------------------------------------------------------------
  // finish

  /** A job of this discipline always has a reason when it skips, so it never
      dies on the skip branch, and it writes its own registered wrapper. */
  lemma FinishedJobOutcome(s: State, k: nat, run: Context -> RunResult)
    requires Tidy(s) && k < |s.jobs| && s.jobs[k].phase == Started && s.jobs[k].input.Some?
    ensures s.jobs[k].id in s.tasks && s.tasks[s.jobs[k].id].serial == s.jobs[k].serial
    ensures !s.tasks[s.jobs[k].id].completed
    ensures JobOutcome(s.jobs[k], run).Some?
  {
    var job := s.jobs[k];
    assert JobTracksWrapper(s, k);
    if !job.canBeRun {
      var d :| d in job.deps && FinishedNotOkay(s.tasks[d]);
      var i :| 0 <= i < |job.deps| && job.deps[i] == d;
      assert FinishedNotOkay(s.tasks[job.deps[i]]);
    }
  }

  /** The task of a started job is registered, incomplete and not queued. */
  lemma StartedJobPending(s: State, k: nat)
    requires Tidy(s) && k < |s.jobs| && s.jobs[k].phase == Started
    ensures s.jobs[k].id in s.tasks && !s.tasks[s.jobs[k].id].completed && s.jobs[k].id !in s.queue
  {
    assert JobTracksWrapper(s, k);
  }

  /** How a finishing job `k` with outcome `o` changes the bookkeeping. */
  ghost predicate FinishedBy(s: State, k: nat, o: Outcome, r: State)
    requires Registered(s) && k < |s.jobs| && s.jobs[k].id in s.tasks
  {
    var job := s.jobs[k];
    r.tasks == s.tasks[job.id := Complete(s.tasks[job.id], o)]
    && r.queue == s.queue
    && |r.jobs| == |s.jobs|
    && r.jobs[k] == job.(phase := Finished)
    && (forall j :: 0 <= j < |s.jobs| && j != k ==> r.jobs[j] == s.jobs[j])
    && o.status != NotAvailable
    && (o.status == Skipped ==> exists i :: 0 <= i < |job.deps| && FinishedNotOkay(s.tasks[job.deps[i]]))
    && (o.status != Skipped ==> job.canBeRun)
  }

  lemma FinishJob(s: State, k: nat, o: Outcome, r: State, j: nat)
    requires Tidy(s) && k < |s.jobs| && s.jobs[k].phase == Started && s.jobs[k].input.Some? && Registered(r)
    requires s.jobs[k].id in s.tasks && FinishedBy(s, k, o, r)
    requires j < |r.jobs|
    ensures JobTracksWrapper(r, j)
  {
    var job := s.jobs[k];
    assert JobTracksWrapper(s, k);
    assert JobTracksWrapper(s, j);
    if j != k {
      assert s.jobs[j].id != job.id;
    }
    if s.jobs[j].canBeRun {
      assert forall d :: d in s.jobs[j].deps ==> HasCompletedOkay(s.tasks[d]) && r.tasks[d] == s.tasks[d];
    } else {
      var d :| d in s.jobs[j].deps && FinishedNotOkay(s.tasks[d]);
      assert r.tasks[d] == s.tasks[d];
    }
    if s.jobs[j].input.Some? && s.jobs[j].input.value.SkipInput? {
      var d := s.jobs[j].input.value.reason.value;
      assert FinishedNotOkay(s.tasks[d]) && d != job.id;
      assert r.tasks[d] == s.tasks[d];
    }
  }

  lemma FinishJobs(s: State, k: nat, o: Outcome, r: State)
    requires Tidy(s) && k < |s.jobs| && s.jobs[k].phase == Started && s.jobs[k].input.Some? && Registered(r)
    requires s.jobs[k].id in s.tasks && FinishedBy(s, k, o, r)
    ensures forall j :: 0 <= j < |r.jobs| ==> JobTracksWrapper(r, j)
  {
    forall j | 0 <= j < |r.jobs| ensures JobTracksWrapper(r, j) {
      FinishJob(s, k, o, r, j);
    }
  }

  /** The finishing job's own wrapper is consistent afterwards. */
  lemma FinishOwnWrapper(s: State, k: nat, o: Outcome, r: State)
    requires Registered(s) && k < |s.jobs| && Registered(r)
    requires s.jobs[k].id in s.tasks && FinishedBy(s, k, o, r)
    requires JobTracksWrapper(s, k) && WrapperConsistent(s, s.jobs[k].id)
    ensures s.jobs[k].id in r.tasks && WrapperConsistent(r, s.jobs[k].id)
  {
    var job := s.jobs[k];
    var x := job.id;
    var v := r.tasks[x];
    assert v == Complete(s.tasks[x], o);
    if o.status == Skipped {
      var i :| 0 <= i < |job.deps| && FinishedNotOkay(s.tasks[job.deps[i]]);
      assert r.tasks[job.deps[i]] == s.tasks[job.deps[i]];
      assert job.deps[i] in v.deps;
    } else {
      assert forall d :: d in v.deps ==> HasCompletedOkay(s.tasks[d]) && r.tasks[d] == s.tasks[d];
    }
    assert forall d :: d in v.deps ==> r.tasks[d].serial == s.tasks[d].serial;
  }

  /** Any other wrapper is untouched and stays consistent. */
  lemma FinishOtherWrapper(s: State, k: nat, o: Outcome, r: State, x: string)
    requires Tidy(s) && k < |s.jobs| && s.jobs[k].phase == Started && s.jobs[k].input.Some? && Registered(r)
    requires s.jobs[k].id in s.tasks && FinishedBy(s, k, o, r)
    requires x in r.tasks && x != s.jobs[k].id
    ensures WrapperConsistent(r, x)
  {
    assert JobTracksWrapper(s, k);
    assert WrapperConsistent(s, x);
    var v := r.tasks[x];
    assert v == s.tasks[x];
    if v.status == Skipped {
      var d :| d in v.deps && FinishedNotOkay(s.tasks[d]);
      assert r.tasks[d] == s.tasks[d];
    }
    if v.completed && v.status != Skipped {
      assert forall d :: d in v.deps ==> r.tasks[d] == s.tasks[d];
    }
    if !v.completed && x !in s.queue {
      var j :| 0 <= j < |s.jobs| && s.jobs[j].id == x;
      assert r.jobs[j].id == x;
    }
    assert forall d :: d in v.deps ==> r.tasks[d].serial == s.tasks[d].serial;
  }

  lemma FinishWrapper(s: State, k: nat, o: Outcome, r: State, x: string)
    requires Tidy(s) && k < |s.jobs| && s.jobs[k].phase == Started && s.jobs[k].input.Some? && Registered(r)
    requires s.jobs[k].id in s.tasks && FinishedBy(s, k, o, r)
    requires x in r.tasks
    ensures WrapperConsistent(r, x)
  {
    if x == s.jobs[k].id {
      assert JobTracksWrapper(s, k);
      assert WrapperConsistent(s, x);
      FinishOwnWrapper(s, k, o, r);
    } else {
      FinishOtherWrapper(s, k, o, r, x);
    }
  }

  lemma FinishWrappers(s: State, k: nat, o: Outcome, r: State)
    requires Tidy(s) && k < |s.jobs| && s.jobs[k].phase == Started && s.jobs[k].input.Some? && Registered(r)
    requires s.jobs[k].id in s.tasks && FinishedBy(s, k, o, r)
    ensures forall x :: x in r.tasks ==> WrapperConsistent(r, x)
  {
    forall x | x in r.tasks ensures WrapperConsistent(r, x) {
      FinishWrapper(s, k, o, r, x);
    }
  }

  lemma FinishIsFinishedBy(s: State, k: nat, run: Context -> RunResult)
    requires Tidy(s) && k < |s.jobs| && s.jobs[k].phase == Started && s.jobs[k].input.Some?
    ensures s.jobs[k].id in s.tasks && JobOutcome(s.jobs[k], run).Some?
    ensures FinishedBy(s, k, JobOutcome(s.jobs[k], run).value, Finish(s, k, run))
  {
    var job := s.jobs[k];
    FinishedJobOutcome(s, k, run);
    var o := JobOutcome(job, run).value;
    assert JobTracksWrapper(s, k);
    if job.input.value.SkipInput? {
      var d := job.input.value.reason.value;
      var i :| 0 <= i < |job.deps| && job.deps[i] == d;
      assert FinishedNotOkay(s.tasks[job.deps[i]]);
    } else {
      assert job.canBeRun && o.status != Skipped;
    }
  }

  lemma FinishTidy(s: State, k: nat, run: Context -> RunResult)
    requires Tidy(s) && k < |s.jobs| && s.jobs[k].phase == Started && s.jobs[k].input.Some?
    ensures Tidy(Finish(s, k, run))
    ensures Settled(s, Finish(s, k, run))
  {
    var r := Finish(s, k, run);
    FinishKeepsInv(s, k, run);
    FinishIsFinishedBy(s, k, run);
    var o := JobOutcome(s.jobs[k], run).value;
    FinishJobs(s, k, o, r);
    FinishWrappers(s, k, o, r);
    FinishSettled(s, k, o, r);
  }

  lemma FinishSettled(s: State, k: nat, o: Outcome, r: State)
    requires Tidy(s) && k < |s.jobs| && s.jobs[k].phase == Started && s.jobs[k].input.Some? && Registered(r)
    requires s.jobs[k].id in s.tasks && FinishedBy(s, k, o, r)
    ensures Settled(s, r)
    ensures Seqs.NoDup(r.queue) && forall q :: q in r.queue ==> !r.tasks[q].completed
    ensures forall a, b :: 0 <= a < b < |r.jobs| ==> r.jobs[a].id != r.jobs[b].id
  {
    StartedJobPending(s, k);
    forall a, b | 0 <= a < b < |r.jobs| ensures r.jobs[a].id != r.jobs[b].id {
      assert r.jobs[a].id == s.jobs[a].id && r.jobs[b].id == s.jobs[b].id;
    }
  }

  /** Raising the terminate flag or the processor's exit touch no bookkeeping. */
  lemma FlagsTidy(s: State, r: State)
    requires Tidy(s)
    requires r == s.(terminate := r.terminate, processorExited := r.processorExited)
    ensures Tidy(r) && Settled(s, r)
  {
    forall j | 0 <= j < |r.jobs| ensures JobTracksWrapper(r, j) {
      assert JobTracksWrapper(s, j);
    }
    forall x | x in r.tasks ensures WrapperConsistent(r, x) {
      assert WrapperConsistent(s, x);
    }
  }

  // ---------------------------------------------------------------------------
  // release

  /** The jobs left after a release still track their wrappers and keep
      distinct ids. */
  lemma ReleaseJobsTidy(s: State, k: nat)
    requires Tidy(s) && k < |s.jobs| && s.jobs[k].phase == Finished
    ensures Inv(Release(s, k))
    ensures forall j :: 0 <= j < |Release(s, k).jobs| ==> JobTracksWrapper(Release(s, k), j)
    ensures forall a, b :: 0 <= a < b < |Release(s, k).jobs| ==> Release(s, k).jobs[a].id != Release(s, k).jobs[b].id
  {
    var r := Release(s, k);
    ReleaseKeepsInv(s, k);
    assert forall j :: 0 <= j < k ==> r.jobs[j] == s.jobs[j];
    assert forall j :: k <= j < |r.jobs| ==> r.jobs[j] == s.jobs[j + 1];
    forall j | 0 <= j < |r.jobs| ensures JobTracksWrapper(r, j) {
      var o := if j < k then j else j + 1;
      assert JobTracksWrapper(s, o);
    }
    forall a, b | 0 <= a < b < |r.jobs| ensures r.jobs[a].id != r.jobs[b].id {
      var a' := if a < k then a else a + 1;
      var b' := if b < k then b else b + 1;
      assert r.jobs[a] == s.jobs[a'] && r.jobs[b] == s.jobs[b'];
    }
  }

  /** A release leaves every wrapper consistent: the released job's task is
      already completed, so no pending task loses its job. */
  lemma ReleaseWrappersTidy(s: State, k: nat)
    requires Tidy(s) && k < |s.jobs| && s.jobs[k].phase == Finished
    ensures Inv(Release(s, k))
    ensures forall x :: x in Release(s, k).tasks ==> WrapperConsistent(Release(s, k), x)
  {
    var r := Release(s, k);
    ReleaseKeepsInv(s, k);
    assert JobTracksWrapper(s, k);
    var done := s.jobs[k].id;
    assert s.tasks[done].completed;
    forall x | x in r.tasks ensures WrapperConsistent(r, x) {
      assert WrapperConsistent(s, x);
      if !s.tasks[x].completed && x !in s.queue {
        assert x != done;
        OtherJobStays(s.jobs, k, r.jobs, x);
      }
      WrapperConsistentTransfer(s, r, x);
    }
  }

  /** Removing a job of another task leaves that task in flight. */
  lemma OtherJobStays(jobs: seq<Job>, k: nat, rest: seq<Job>, x: string)
    requires k < |jobs| && jobs[k].id != x && rest == jobs[..k] + jobs[k + 1..]
    requires exists j :: 0 <= j < |jobs| && jobs[j].id == x
    ensures exists j :: 0 <= j < |rest| && rest[j].id == x
  {
    var j :| 0 <= j < |jobs| && jobs[j].id == x;
    var j' := if j < k then j else j - 1;
    assert rest[j'] == jobs[j];
  }

  /** Consistency of a wrapper only depends on the registry, the queue and
      where its task is in flight. */
  lemma WrapperConsistentTransfer(s: State, r: State, x: string)
    requires DepsRegistered(s) && x in s.tasks && r.tasks == s.tasks && r.queue == s.queue
    requires WrapperConsistent(s, x)
    requires !s.tasks[x].completed && x !in s.queue ==> InFlight(r, x)
    ensures DepsRegistered(r) && WrapperConsistent(r, x)
  {
  }

  lemma ReleaseTidy(s: State, k: nat)
    requires Tidy(s) && k < |s.jobs| && s.jobs[k].phase == Finished
    ensures Tidy(Release(s, k))
    ensures Settled(s, Release(s, k))
  {
    ReleaseJobsTidy(s, k);
    ReleaseWrappersTidy(s, k);
  }

  // ---------------------------------------------------------------------------
  // All steps

  /** Every step of the duplicate-free discipline keeps `Tidy`, and a
      completed task's result is final. */
  lemma NextTidy(s: State, step: Step)
    requires Tidy(s) && FreshStep(s, step)
    ensures Tidy(Next(s, step))
    ensures Settled(s, Next(s, step))
  {
    match step
    case SubmitStep(sub) =>
      if Submit(s, sub).Ok? { SubmitTidy(s, sub); SubmitSettled(s, sub); }
    case DispatchStep =>
      if Dispatch(s).Some? { DispatchTidy(s); }
    case BeginStep(k) => BeginTidy(s, k);
    case FinishStep(k, run) => FinishTidy(s, k, run);
    case ReleaseStep(k) => ReleaseTidy(s, k);
    case TerminateStep => FlagsTidy(s, RequestTerminate(s));
    case ExitStep => FlagsTidy(s, Next(s, step));
  }

  /** When `barrier` returns, every registered task has completed with 'ok',
      'fail' or 'skip'. */
  lemma BarrierMeansAllCompleted(s: State)
    requires Tidy(s) && Quiescent(s)
    ensures forall id :: id in s.tasks ==> s.tasks[id].completed && Terminal(s.tasks[id].status)
  {
    forall id | id in s.tasks ensures s.tasks[id].completed && Terminal(s.tasks[id].status) {
      assert WrapperConsistent(s, id);
      assert |s.jobs| == 0;
    }
  }

  // ---------------------------------------------------------------------------
  // No deadlock while nothing runs

  /** A queue position holding the task submitted earliest. */
  ghost function OldestQueued(tasks: map<string, Wrapper>, queue: seq<string>): (i: nat)
    requires |queue| > 0 && forall q :: q in queue ==> q in tasks
    ensures i < |queue|
    ensures forall j :: 0 <= j < |queue| ==> tasks[queue[i]].serial <= tasks[queue[j]].serial
    decreases |queue|
  {
    if |queue| == 1 then 0
    else
      var i := OldestQueued(tasks, queue[1..]);
      assert forall j :: 1 <= j < |queue| ==> queue[j] == queue[1..][j - 1];
      if tasks[queue[0]].serial <= tasks[queue[1..][i]].serial then 0 else i + 1
  }

  /** With no task in flight and a free slot, the processor always finds a
      queued task to start or skip: the oldest queued task's dependencies were
      all submitted before it and have all completed. */
  lemma IdleQueueDispatches(s: State)
    requires Tidy(s) && |s.queue| > 0 && s.running == 0 && s.maxWorkers > 0 && !s.processorExited
    ensures Dispatch(s).Some?
  {
    var i := OldestQueued(s.tasks, s.queue);
    var q := s.queue[i];
    var w := s.tasks[q];
    assert |s.jobs| == 0;
    assert WrapperConsistent(s, q);
    forall d | d in w.deps ensures HasFinished(s.tasks[d]) {
      assert WrapperConsistent(s, d);
      forall j | 0 <= j < |s.queue| ensures s.queue[j] != d {
        assert s.tasks[q].serial <= s.tasks[s.queue[j]].serial;
      }
    }
    var walk := WalkDeps(s.tasks, w.deps);
    assert walk != Blocked;
    assert MutexesFree(s.held, w.mutexes);
    assert Readiness(s, q).Some?;
  }
}
