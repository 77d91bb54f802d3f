/** Invariants of the scheduler state machine.

    `Inv` holds in every reachable state, whatever is submitted: the worker
    bound and mutual exclusion of mutex holders. `Tidy` additionally holds while
    every submitted id is new (the way the builders use the scheduler): every
    task is in exactly one place of its life cycle, a completed task's result
    never changes, and `barrier` returns only once every task has completed. */
module SchedulerInvariants {
  import opened Wrappers
  import opened Tasks
  import opened Scheduler
  import Seqs

  // ---------------------------------------------------------------------------
  // Steps

  /** One atomic critical section of the scheduler or its workers. */
  datatype Step =
    | SubmitStep(sub: Submission)
    | DispatchStep
    | BeginStep(k: nat)
    | FinishStep(k: nat, run: Context -> RunResult)
    | ReleaseStep(k: nat)
    | TerminateStep
    | ExitStep

  ghost predicate Registered(s: State) {
    QueueRegistered(s) && DepsRegistered(s)
    && (forall id :: id in s.tasks ==> s.tasks[id].id == id && s.tasks[id].serial < s.nextSerial)
    && (forall j :: 0 <= j < |s.jobs| ==> forall d :: d in s.jobs[j].deps ==> d in s.tasks)
  }

  ghost predicate WorkerBound(s: State) {
    s.running == |s.jobs| && s.running <= s.maxWorkers
  }

  ghost predicate Disjoint(a: seq<string>, b: seq<string>) {
    forall m :: m in a ==> m !in b
  }

  /** Jobs that were run hold pairwise different mutexes, and a mutex is
      marked held exactly when such a job holds it. */
  ghost predicate MutexExclusion(s: State) {
    (forall i, j :: 0 <= i < |s.jobs| && 0 <= j < |s.jobs| && i != j && s.jobs[i].canBeRun && s.jobs[j].canBeRun
                    ==> Disjoint(s.jobs[i].mutexes, s.jobs[j].mutexes))
    && (forall m :: Holds(s.held, m) <==> exists j :: 0 <= j < |s.jobs| && s.jobs[j].canBeRun && m in s.jobs[j].mutexes)
  }

  ghost predicate Inv(s: State) {
    Registered(s) && WorkerBound(s) && MutexExclusion(s)
  }

  /** Whether a step can be taken: a worker reads its input once, finishes
      only after reading it, and leaves only after finishing. Submitting,
      dispatching and the processor's exit are always attempted; they may
      leave the state as it is. */
  ghost predicate Enabled(s: State, step: Step) {
    match step
    case BeginStep(k) => k < |s.jobs| && s.jobs[k].phase == Started && s.jobs[k].input.None?
    case FinishStep(k, _) => k < |s.jobs| && s.jobs[k].phase == Started && s.jobs[k].input.Some?
    case ReleaseStep(k) => k < |s.jobs| && s.jobs[k].phase == Finished
    case _ => true
  }

  /** The state after a step. A `submit` that raises leaves the state
      unchanged; a dispatch attempt that finds nothing to do waits. */
  function Next(s: State, step: Step): State
    requires Inv(s) && Enabled(s, step)
  {
    match step
    case SubmitStep(sub) =>
      (match Submit(s, sub) case Ok(s') => s' case Err(_) => s)
    case DispatchStep =>
      (match Dispatch(s) case Some(s') => s' case None => s)
    case BeginStep(k) => Begin(s, k)
    case FinishStep(k, run) => Finish(s, k, run)
    case ReleaseStep(k) => Release(s, k)
    case TerminateStep => RequestTerminate(s)
    case ExitStep =>
      (match ProcessorExit(s) case Some(s') => s' case None => s)
  }

  lemma InitInv(maxWorkers: nat)
    ensures Inv(Init(maxWorkers))
  {
  }

  // ---------------------------------------------------------------------------
  // Inv is preserved

  lemma SubmitKeepsInv(s: State, sub: Submission)
    requires Inv(s)
    requires Submit(s, sub).Ok?
    ensures Inv(Submit(s, sub).value)
  {
    var r := Submit(s, sub).value;
    var w := NewWrapper(s, sub);
    assert r == s.(tasks := s.tasks[sub.id := w], queue := r.queue, nextSerial := s.nextSerial + 1);
    assert forall d :: d in sub.deps ==> d in s.tasks;
    assert QueueRegistered(r) by {
      forall q | q in r.queue ensures q in r.tasks {
        if |sub.mutexes| > 0 {
          var k :| InsertedBeforeFirstFree(s.queue, sub.id, r.tasks, r.queue, k);
          assert q in s.queue[..k] || q == sub.id || q in s.queue[k..];
        } else {
          assert q in s.queue || q == sub.id;
        }
      }
    }
    assert DepsRegistered(r) by {
      forall id, d | id in r.tasks && d in r.tasks[id].deps ensures d in r.tasks {
        if id != sub.id {
          assert r.tasks[id] == s.tasks[id];
        }
      }
    }
    assert Registered(r);
    assert MutexExclusion(r) by {
      assert r.jobs == s.jobs && r.held == s.held;
    }
  }

  /** Starting a task keeps exclusion provided a task that is run finds its
      mutexes free, which is what the scan checks. */
  lemma StartTaskKeepsExclusion(s: State, id: string, canRun: bool)
    requires MutexExclusion(s)
    requires id in s.queue && id in s.tasks
    requires canRun ==> MutexesFree(s.held, s.tasks[id].mutexes)
    ensures MutexExclusion(StartTask(s, id, canRun))
  {
    var r := StartTask(s, id, canRun);
    var w := s.tasks[id];
    var n := |s.jobs|;
    assert r.jobs[n] == Job(id, w.serial, w.deps, w.mutexes, canRun, Started, None);
    assert forall j :: 0 <= j < n ==> r.jobs[j] == s.jobs[j];
    forall a, b | 0 <= a < |r.jobs| && 0 <= b < |r.jobs| && a != b && r.jobs[a].canBeRun && r.jobs[b].canBeRun
      ensures Disjoint(r.jobs[a].mutexes, r.jobs[b].mutexes)
    {
      if a == n || b == n {
        var o := if a == n then b else a;
        forall m | m in w.mutexes ensures m !in s.jobs[o].mutexes {
          assert !Holds(s.held, m);
        }
      }
    }
    forall m ensures Holds(r.held, m) <==> exists j :: 0 <= j < |r.jobs| && r.jobs[j].canBeRun && m in r.jobs[j].mutexes {
      if canRun && m in w.mutexes {
        assert r.jobs[n].canBeRun && m in r.jobs[n].mutexes;
      } else {
        assert Holds(r.held, m) == Holds(s.held, m);
        if exists j :: 0 <= j < |r.jobs| && r.jobs[j].canBeRun && m in r.jobs[j].mutexes {
          var j :| 0 <= j < |r.jobs| && r.jobs[j].canBeRun && m in r.jobs[j].mutexes;
          assert j < n;
        }
      }
    }
  }

  lemma StartTaskKeepsRegistered(s: State, id: string, canRun: bool)
    requires Registered(s)
    requires id in s.queue && id in s.tasks
    ensures Registered(StartTask(s, id, canRun))
  {
    var r := StartTask(s, id, canRun);
    assert multiset(r.queue) == multiset(s.queue) - multiset{id};
    assert QueueRegistered(r) by {
      forall q | q in r.queue ensures q in r.tasks {
        assert q in multiset(r.queue);
        assert q in multiset(s.queue);
      }
    }
    assert forall j :: 0 <= j < |s.jobs| ==> r.jobs[j] == s.jobs[j];
  }

  /** A task the scan finds runnable has its mutexes free. */
  lemma ReadyMutexesFree(s: State, id: string)
    requires id in s.tasks && DepsRegistered(s)
    requires Readiness(s, id) == Some(true)
    ensures MutexesFree(s.held, s.tasks[id].mutexes)
  {
  }

  lemma StartTaskKeepsInv(s: State, id: string, canRun: bool)
    requires Inv(s)
    requires id in s.queue && id in s.tasks
    requires canRun ==> MutexesFree(s.held, s.tasks[id].mutexes)
    requires s.running < s.maxWorkers
    ensures Inv(StartTask(s, id, canRun))
  {
    StartTaskKeepsExclusion(s, id, canRun);
    StartTaskKeepsRegistered(s, id, canRun);
  }

  lemma DispatchKeepsInv(s: State)
    requires Inv(s)
    requires Dispatch(s).Some?
    ensures Inv(Dispatch(s).value)
  {
    DispatchRemovesSelected(s);
    var i :| FirstActionable(s, i) && Dispatch(s) == Some(StartTask(s, s.queue[i], Readiness(s, s.queue[i]).value))
             && Dispatch(s).value.queue == s.queue[..i] + s.queue[i + 1..];
    var id := s.queue[i];
    var canRun := Readiness(s, id).value;
    if canRun { ReadyMutexesFree(s, id); }
    StartTaskKeepsInv(s, id, canRun);
  }

  /** A worker reading its input changes no job's dependencies, mutexes or
      verdict, so the invariant is kept. */
  lemma BeginKeepsInv(s: State, k: nat)
    requires Inv(s) && k < |s.jobs| && s.jobs[k].phase == Started && s.jobs[k].input.None?
    ensures Inv(Begin(s, k))
  {
    var r := Begin(s, k);
    assert forall j :: 0 <= j < |s.jobs| ==>
             r.jobs[j].canBeRun == s.jobs[j].canBeRun && r.jobs[j].mutexes == s.jobs[j].mutexes
             && r.jobs[j].deps == s.jobs[j].deps;
    assert MutexExclusion(r) by {
      forall m ensures Holds(r.held, m) <==> exists j :: 0 <= j < |r.jobs| && r.jobs[j].canBeRun && m in r.jobs[j].mutexes {
        if exists j :: 0 <= j < |s.jobs| && s.jobs[j].canBeRun && m in s.jobs[j].mutexes {
          var j :| 0 <= j < |s.jobs| && s.jobs[j].canBeRun && m in s.jobs[j].mutexes;
          assert r.jobs[j].canBeRun && m in r.jobs[j].mutexes;
        }
      }
    }
  }

  /** Finishing changes no job's dependencies, mutexes or verdict. */
  lemma FinishJobShapes(s: State, k: nat, run: Context -> RunResult)
    requires CanFinish(s, k)
    ensures var r := Finish(s, k, run);
            forall j :: 0 <= j < |s.jobs| ==>
              (r.jobs[j].canBeRun == s.jobs[j].canBeRun && r.jobs[j].mutexes == s.jobs[j].mutexes
               && r.jobs[j].deps == s.jobs[j].deps)
  {
  }

  lemma FinishKeepsInv(s: State, k: nat, run: Context -> RunResult)
    requires Inv(s)
    requires k < |s.jobs| && s.jobs[k].phase == Started && s.jobs[k].input.Some?
    ensures Inv(Finish(s, k, run))
  {
    var r := Finish(s, k, run);
    FinishJobShapes(s, k, run);
    assert Registered(r) by {
      assert forall id :: id in r.tasks ==> SameSubmission(r.tasks[id], s.tasks[id]);
    }
    assert MutexExclusion(r) by {
      forall m ensures Holds(r.held, m) <==> exists j :: 0 <= j < |r.jobs| && r.jobs[j].canBeRun && m in r.jobs[j].mutexes {
        if exists j :: 0 <= j < |s.jobs| && s.jobs[j].canBeRun && m in s.jobs[j].mutexes {
          var j :| 0 <= j < |s.jobs| && s.jobs[j].canBeRun && m in s.jobs[j].mutexes;
          assert r.jobs[j].canBeRun && m in r.jobs[j].mutexes;
        }
      }
    }
  }

  /** After a release a mutex is marked held exactly when a remaining run
      job holds it. */
  lemma ReleaseHeld(s: State, k: nat)
    requires Inv(s)
    requires k < |s.jobs| && s.jobs[k].phase == Finished
    ensures var r := Release(s, k);
            forall m :: Holds(r.held, m) <==> exists j :: 0 <= j < |r.jobs| && r.jobs[j].canBeRun && m in r.jobs[j].mutexes
  {
    var r := Release(s, k);
    var job := s.jobs[k];
    assert forall j :: 0 <= j < k ==> r.jobs[j] == s.jobs[j];
    assert forall j :: k <= j < |r.jobs| ==> r.jobs[j] == s.jobs[j + 1];
    forall m ensures Holds(r.held, m) <==> exists j :: 0 <= j < |r.jobs| && r.jobs[j].canBeRun && m in r.jobs[j].mutexes {
      if job.canBeRun && m in job.mutexes {
        assert !Holds(r.held, m);
        forall j | 0 <= j < |r.jobs| && r.jobs[j].canBeRun ensures m !in r.jobs[j].mutexes {
          var o := if j < k then j else j + 1;
          assert r.jobs[j] == s.jobs[o] && o != k;
          assert Disjoint(s.jobs[k].mutexes, s.jobs[o].mutexes);
        }
      } else {
        assert Holds(r.held, m) == Holds(s.held, m);
        if Holds(s.held, m) {
          var j :| 0 <= j < |s.jobs| && s.jobs[j].canBeRun && m in s.jobs[j].mutexes;
          assert j != k;
          var j' := if j < k then j else j - 1;
          assert r.jobs[j'] == s.jobs[j];
        }
      }
    }
  }

  lemma ReleaseKeepsInv(s: State, k: nat)
    requires Inv(s)
    requires k < |s.jobs| && s.jobs[k].phase == Finished
    ensures Inv(Release(s, k))
  {
    var r := Release(s, k);
    ReleaseHeld(s, k);
    assert forall j :: 0 <= j < k ==> r.jobs[j] == s.jobs[j];
    assert forall j :: k <= j < |r.jobs| ==> r.jobs[j] == s.jobs[j + 1];
    forall a, b | 0 <= a < |r.jobs| && 0 <= b < |r.jobs| && a != b && r.jobs[a].canBeRun && r.jobs[b].canBeRun
      ensures Disjoint(r.jobs[a].mutexes, r.jobs[b].mutexes)
    {
      var a' := if a < k then a else a + 1;
      var b' := if b < k then b else b + 1;
      assert r.jobs[a] == s.jobs[a'] && r.jobs[b] == s.jobs[b'];
    }
  }

  /** Every step keeps `Inv`: at most `max_workers` tasks (runnable or
      skipped) occupy a slot, and no two run tasks hold the same mutex. */
  lemma NextKeepsInv(s: State, step: Step)
    requires Inv(s) && Enabled(s, step)
    ensures Inv(Next(s, step))
  {
    match step
    case SubmitStep(sub) =>
      if Submit(s, sub).Ok? { SubmitKeepsInv(s, sub); }
    case DispatchStep =>
      if Dispatch(s).Some? { DispatchKeepsInv(s); }
    case BeginStep(k) => BeginKeepsInv(s, k);
    case FinishStep(k, run) => FinishKeepsInv(s, k, run);
    case ReleaseStep(k) => ReleaseKeepsInv(s, k);
    case TerminateStep =>
    case ExitStep =>
  }
}
