/** Concrete runs of the scheduler state machine. */
module SchedulerScenarios {
  import opened Wrappers
  import opened Tasks
  import opened Scheduler
  import Seqs

  function Plain(id: string, deps: seq<string>, mutexes: seq<string>): Submission {
    Submission(id, id, OtherWork(id), deps, mutexes)
  }

  function FailedWrapper(id: string, serial: nat): Wrapper {
    Wrapper(id, serial, id, OtherWork(id), [], [], Failed, Some("boom"), true, EmptyData)
  }

  function Boom(ctx: Context): RunResult {
    Raised("boom")
  }

  function Dependant(): Wrapper {
    Wrapper("c", 2, "c", OtherWork("c"), ["a", "b"], [], NotAvailable, None, false, EmptyData)
  }

  /** Tasks a and b have failed; c, which depends on both, waits in the queue. */
  function BothFailed(): State {
    State(2, map["a" := FailedWrapper("a", 0), "b" := FailedWrapper("b", 1), "c" := Dependant()],
          ["c"], map[], 0, [], 3, false, false)
  }

  /** The dependant of two failed tasks is selected for skipping: it leaves
      the queue and takes a worker slot, but holds no mutex. */
  lemma FailedDependenciesSelectSkip()
    ensures Dispatch(BothFailed()) == Some(BothFailed().(queue := [], running := 1,
                                                         jobs := [Job("c", 2, ["a", "b"], [], false, Started, None)]))
  {
    var s := BothFailed();
    assert WalkDeps(s.tasks, ["a", "b"]) == SkipNow;
    assert Readiness(s, "c") == Some(false);
    assert ScanFrom(s, 0) == Some((0, false));
    assert GetFirstReady(s) == Some(("c", false));
    assert Seqs.RemoveFirst(["c"], "c") == [];
    var r := StartTask(s, "c", false);
    assert r.queue == [] && r.held == s.held && r.tasks == s.tasks;
    assert r.jobs == [Job("c", 2, ["a", "b"], [], false, Started, None)];
    assert Dispatch(s) == Some(r);
  }

  /** The state `FailedDependenciesSelectSkip` dispatches into. */
  function SkipStarted(): State {
    BothFailed().(queue := [], running := 1, jobs := [Job("c", 2, ["a", "b"], [], false, Started, None)])
  }

  /** The worker of the skipped task has started and read its reason. */
  function SkipBegun(): State {
    var s := SkipStarted();
    assert CanBegin(s, 0);
    Begin(s, 0)
  }

  /** The skip branch computes a reason naming the failed dependency listed
      last, and never calls the task body. */
  lemma SkipOutcomeNamesLastFailed()
    ensures JobOutcome(SkipBegun().jobs[0], Boom)
            == Some(Outcome(Skipped, EmptyData, Some(SkipReason("b"))))
  {
    var s := SkipStarted();
    var job := s.jobs[0];
    assert job.deps == ["a", "b"] && !job.canBeRun;
    assert FinishedNotOkay(s.tasks[job.deps[1]]);
    BeginDecidesOutcome(s, 0, Boom);
    var o := JobOutcome(SkipBegun().jobs[0], Boom);
    assert o.Some?;
    assert o.value.reason == Some(SkipReason("b"));
  }

  /** The skipped task is completed with that reason in the registry. */
  lemma SkipNamesLastFailedDependency()
    ensures Finish(SkipBegun(), 0, Boom).tasks["c"]
            == Dependant().(status := Skipped, reason := Some(SkipReason("b")), completed := true)
  {
    var s := SkipBegun();
    SkipOutcomeNamesLastFailed();
    var o := Outcome(Skipped, EmptyData, Some(SkipReason("b")));
    assert s.tasks["c"] == Dependant();
    assert Finish(s, 0, Boom).tasks == s.tasks["c" := Complete(Dependant(), o)];
  }

  /** Task a has completed 'ok' with data 1, and the worker of c, which
      depends on a, has started and read that data. */
  function ReadBeforeResubmit(): State {
    var a := Wrapper("a", 0, "a", OtherWork("a"), [], [], Succeeded, None, true, VInt(1));
    var c := Wrapper("c", 1, "c", OtherWork("c"), ["a"], [], NotAvailable, None, false, EmptyData);
    var s := State(2, map["a" := a, "c" := c], [], map[], 1, [Job("c", 1, ["a"], [], true, Started, None)], 2, false, false);
    assert CanBegin(s, 0);
    Begin(s, 0)
  }

  /** a is submitted again while the body of c runs. The registry now holds
      a fresh wrapper for a with no data, yet c finishes with what its body
      made of the data a had when c's worker started. */
  lemma ResubmittedDependencyKeepsReadData(run: Context -> RunResult)
    ensures Submit(ReadBeforeResubmit(), Plain("a", [], [])).Ok?
    ensures var s := Submit(ReadBeforeResubmit(), Plain("a", [], [])).value;
            && s.tasks["a"].data == EmptyData && !s.tasks["a"].completed
            && CanFinish(s, 0)
            && Finish(s, 0, run).tasks["c"].data == Execute(run([("a", VInt(1))])).data
  {
    var s0 := ReadBeforeResubmit();
    assert s0.jobs[0].input == Some(RunInput([("a", VInt(1))])) by {
      var tasks := s0.tasks;
      assert DataOf(tasks)["a"] == VInt(1);
      assert BuildContext([], ["a"], DataOf(tasks)) == [("a", VInt(1))] by {
        assert ContextKeys([]) == [];
      }
    }
    assert FirstUnknown(s0.tasks, []) == None;
    var s := Submit(s0, Plain("a", [], [])).value;
    assert s.jobs == s0.jobs;
    assert s.tasks["c"] == s0.tasks["c"];
  }

  /** A submission with a mutex overtakes queued mutex-free tasks but not
      queued tasks that have mutexes themselves. */
  lemma MutexSubmissionOvertakes()
    ensures
      var s0 := Init(1);
      var s1 := Submit(s0, Plain("m1", [], ["kvm"])).value;
      var s2 := Submit(s1, Plain("x", [], [])).value;
      var s3 := Submit(s2, Plain("m2", [], ["kvm"])).value;
      s3.queue == ["m1", "m2", "x"]
  {
    var s0 := Init(1);
    var s1 := Submit(s0, Plain("m1", [], ["kvm"])).value;
    assert s1.queue == ["m1"];
    var s2 := Submit(s1, Plain("x", [], [])).value;
    assert s2.queue == ["m1", "x"];
    var s3 := Submit(s2, Plain("m2", [], ["kvm"])).value;
    assert InsertLoop(["x"], "m2", s3.tasks, true) == ["x"];
    assert InsertLoop(["m1", "x"], "m2", s3.tasks, false) == ["m1", "m2", "x"];
  }
}
