/** The test side of the build (hbuild/builders/tests.py): listing and
    filtering the scenario files, reading the harbours a scenario needs,
    submitting one test run per scenario and profile (asking the extra-build
    manager for an image with the needed harbours), and what a test run does
    with the image its build hands it.

    The scenario directory tree, the loaded YAML documents, `fnmatch` and
    the tester's exit status are inputs. */
module Testing {
  import opened Wrappers
  import opened Strings
  import opened Tasks
  import opened Names
  import Seqs
  import opened Scheduler
  import opened SchedulerInvariants
  import opened Submissions
  import opened HelenOS

  // ---------------------------------------------------------------------------
  // GetTestListTask

  /** An entry of the scenario directory tree, children in listing order. */
  datatype Entry = Dir(name: string, children: seq<Entry>) | File(name: string) | Other(name: string)

  /** `get_scenario_list(root, base)`: the `.yml` files under the entries,
      as paths relative to the scenario root; the top-level `dummy`
      directory is not entered. */
  function ScenarioList(es: seq<Entry>, base: string): (r: seq<string>)
    ensures base == "dummy/" ==> r == []
    ensures forall x :: x in r ==> StartsWith(x, base) && EndsWith(x, ".yml")
    decreases es
  {
    if base == "dummy/" || |es| == 0 then []
    else
      var here := EntryScenarios(es[0], base);
      var rest := ScenarioList(es[1..], base);
      here + rest
  }

  /** What one entry contributes to `get_scenario_list(root, base)`. */
  function EntryScenarios(e: Entry, base: string): (r: seq<string>)
    ensures forall x :: x in r ==> StartsWith(x, base) && EndsWith(x, ".yml")
    decreases e
  {
    match e
    case Dir(n, ch) =>
      var sub := ScenarioList(ch, base + n + "/");
      BelowBase(sub, base, n + "/");
      sub
    case File(n) => FileScenario(n, Extension(n), base)
    case Other(_) => []
  }

  lemma BelowBase(xs: seq<string>, base: string, more: string)
    requires forall x :: x in xs ==> StartsWith(x, base + more)
    ensures forall x :: x in xs ==> StartsWith(x, base)
  {
    forall x | x in xs ensures StartsWith(x, base) {
      StartsWithConcat(x, base, more);
    }
  }

  /** A plain file is listed when its extension `ext` is `.yml`. */
  function FileScenario(n: string, ext: string, base: string): (r: seq<string>)
    requires EndsWith(n, ext)
    ensures ext == ".yml" ==> r == [base + n]
    ensures r != [] ==> ext == ".yml"
    ensures forall x :: x in r ==> StartsWith(x, base) && EndsWith(x, ".yml")
  {
    if ext == ".yml" then
      YmlFile(n, base);
      [base + n]
    else []
  }

  lemma YmlFile(n: string, base: string)
    requires EndsWith(n, ".yml")
    ensures StartsWith(base + n, base) && EndsWith(base + n, ".yml")
  {
    EndsWithConcat(base, n, ".yml");
    assert (base + n)[..|base|] == base;
  }

  /** A path below a top-level name other than `dummy` is not below `dummy/`. */
  lemma NotBelowDummy(n: string, x: string)
    requires '/' !in n && n != "dummy" && StartsWith(x, n + "/")
    ensures !StartsWith(x, "dummy/")
  {
    assert x[|n|] == '/';
    if |n| < 5 {
      assert "dummy/"[|n|] != '/';
    } else if |n| == 5 {
      assert x[..5] == n;
    } else {
      assert x[5] == n[5] && n[5] != '/';
    }
  }

  lemma NoSlashNotBelowDummy(n: string)
    requires '/' !in n
    ensures !StartsWith(n, "dummy/")
  {
    if |n| >= 6 {
      assert n[5] in n;
    }
  }

  /** A top-level directory other than `dummy` lists nothing under `dummy/`. */
  lemma DirNotBelowDummy(n: string, ch: seq<Entry>)
    requires '/' !in n
    ensures forall x :: x in EntryScenarios(Dir(n, ch), "") ==> !StartsWith(x, "dummy/")
  {
    var xs := ScenarioList(ch, "" + n + "/");
    assert EntryScenarios(Dir(n, ch), "") == xs;
    assert "" + n + "/" == n + "/";
    if n != "dummy" {
      forall x | x in xs ensures !StartsWith(x, "dummy/") {
        NotBelowDummy(n, x);
      }
    }
  }

  /** A top-level file is never below `dummy/`. */
  lemma FileNotBelowDummy(n: string, ext: string)
    requires '/' !in n && EndsWith(n, ext)
    ensures forall x :: x in FileScenario(n, ext, "") ==> !StartsWith(x, "dummy/")
  {
    assert "" + n == n;
    NoSlashNotBelowDummy(n);
  }

  /** A top-level entry other than `dummy` lists nothing under `dummy/`. */
  lemma EntryNotBelowDummy(e: Entry)
    requires '/' !in e.name
    ensures forall x :: x in EntryScenarios(e, "") ==> !StartsWith(x, "dummy/")
  {
    match e
    case Dir(n, ch) => DirNotBelowDummy(n, ch);
    case File(n) => FileNotBelowDummy(n, Extension(n));
    case Other(_) =>
  }

  /** With top-level names free of '/', nothing under `dummy/` is listed. */
  lemma {:induction false} DummySubtreeExcluded(es: seq<Entry>)
    requires forall i :: 0 <= i < |es| ==> '/' !in es[i].name
    ensures forall x :: x in ScenarioList(es, "") ==> !StartsWith(x, "dummy/")
    decreases |es|
  {
    if |es| > 0 {
      DummySubtreeExcluded(es[1..]);
      EntryNotBelowDummy(es[0]);
      assert ScenarioList(es, "") == EntryScenarios(es[0], "") + ScenarioList(es[1..], "");
    }
  }

  /** The first pattern loop: some pattern matches the file. */
  predicate AnyMatch(f: string, pats: seq<string>, matches: (string, string) -> bool) {
    exists i :: 0 <= i < |pats| && matches(f, pats[i])
  }

  /** The patterns in effect: 'ALL' stands for the listed files themselves. */
  function Patterns(files: seq<string>, filter: seq<string>): seq<string> {
    if "ALL" in filter then files else filter
  }

  /** The filtering loop of `GetTestListTask.run`, over the files from `i` on. */
  function KeepMatching(files: seq<string>, pats: seq<string>, matches: (string, string) -> bool): (r: seq<string>)
    ensures Seqs.Subseq(r, files)
    ensures forall f :: multiset(r)[f] == if AnyMatch(f, pats, matches) then multiset(files)[f] else 0
    decreases |files|
  {
    if |files| == 0 then []
    else
      var rest := KeepMatching(files[1..], pats, matches);
      assert files == [files[0]] + files[1..];
      if AnyMatch(files[0], pats, matches) then
        assert ([files[0]] + rest)[1..] == rest;
        [files[0]] + rest
      else
        rest
  }

  /** `GetTestListTask.run`: the `scenarios` entry of its result. */
  function GetTestList(tree: seq<Entry>, filter: seq<string>, matches: (string, string) -> bool): (r: seq<string>)
    ensures Seqs.Subseq(r, ScenarioList(tree, ""))
    ensures forall f :: multiset(r)[f] ==
              if AnyMatch(f, Patterns(ScenarioList(tree, ""), filter), matches) then multiset(ScenarioList(tree, ""))[f] else 0
  {
    var files := ScenarioList(tree, "");
    KeepMatching(files, Patterns(files, filter), matches)
  }

  /** With 'ALL', every listed file is kept when each name matches itself
      (it has no glob characters). */
  lemma {:induction false} AllKeepsEveryFile(files: seq<string>, pats: seq<string>, matches: (string, string) -> bool)
    requires forall f :: f in files ==> f in pats && matches(f, f)
    ensures KeepMatching(files, pats, matches) == files
    decreases |files|
  {
    if |files| > 0 {
      var f := files[0];
      assert f in files;
      var i :| 0 <= i < |pats| && pats[i] == f;
      assert AnyMatch(f, pats, matches);
      assert forall g :: g in files[1..] ==> g in files;
      AllKeepsEveryFile(files[1..], pats, matches);
      assert files == [f] + files[1..];
    }
  }

  // ---------------------------------------------------------------------------
  // ScheduleTestsTask.get_needed_harbours

  /** The items of a list when all are strings. */
  function Strs(items: seq<Value>): (r: Option<seq<string>>)
    ensures r.Some? <==> forall i :: 0 <= i < |items| ==> items[i].VStr?
    ensures r.Some? ==> |r.value| == |items| && forall i :: 0 <= i < |items| ==> VStr(r.value[i]) == items[i]
    decreases |items|
  {
    if |items| == 0 then Some([])
    else if !items[0].VStr? then None
    else
      match Strs(items[1..])
      case None =>
        assert !items[1..][0].VStr? || exists i :: 0 <= i < |items[1..]| && !items[1..][i].VStr?;
        None
      case Some(rest) => Some([items[0].s] + rest)
  }

  /** `scenario['meta']['harbours']`, when the document has that shape and
      the list holds strings. */
  function MetaHarbours(doc: Value): Option<seq<string>> {
    match doc
    case VDict(top) =>
      if "meta" in top && top["meta"].VDict? && "harbours" in top["meta"].entries
         && top["meta"].entries["harbours"].VList?
      then Strs(top["meta"].entries["harbours"].items)
      else None
    case _ => None
  }

  /** `get_needed_harbours`: the sorted harbour list of the scenario, or []
      when the file cannot be loaded (Err) or has no such list. */
  function NeededHarbours(doc: Result<Value>): (r: seq<string>)
    ensures Seqs.Sorted(r)
    ensures doc.Ok? && MetaHarbours(doc.value).Some? ==> multiset(r) == multiset(MetaHarbours(doc.value).value)
    ensures doc.Err? || MetaHarbours(doc.value).None? ==> r == []
  {
    if doc.Err? then []
    else
      match MetaHarbours(doc.value)
      case None => []
      case Some(names) => Seqs.Sort(names)
  }

  // ---------------------------------------------------------------------------
  // ScheduleTestsTask.run

  /** The profiles the tests run on, in this order. */
  const TestableProfiles := ["ia32", "amd64", "arm32/integratorcp", "ppc32"]

  const KvmMutex := "qemu-kvm"

  /** The testable profiles that have a HelenOS build, in testable order. */
  function TestedProfiles(helenosTasks: map<string, string>): (r: seq<string>)
    ensures Seqs.Subseq(r, TestableProfiles)
    ensures forall p :: p in r <==> p in TestableProfiles && p in helenosTasks
  {
    Seqs.Filter(TestableProfiles, p => p in helenosTasks)
  }

  /** `scenario.replace('/', '-').replace('.', '-')`. */
  function ScenarioFlat(scenario: string): string {
    ReplaceChar(ReplaceChar(scenario, '/', '-'), '.', '-')
  }

  function TestId(profile: string, scenario: string): string {
    "test-" + Flat(profile) + "-" + ScenarioFlat(scenario)
  }

  /** `os.path.join(a, b)` for two parts. */
  function JoinPath(a: string, b: string): string {
    if StartsWith(b, "/") then b
    else if a == [] || EndsWith(a, "/") then a + b
    else a + "/" + b
  }

  /** The fixed arguments of every test run. */
  datatype TestSetup = TestSetup(scenarioDir: string, tester: string, options: seq<string>)

  function TestSub(t: TestSetup, profile: string, scenario: string, image: string): Submission {
    Submission("Testing " + scenario + " on " + profile, TestId(profile, scenario),
               TestRunWork(profile, scenario, JoinPath(t.scenarioDir, scenario), t.tester, t.options),
               [image], [KvmMutex])
  }

  /** One (scenario, profile) step: the manager afterwards and the submissions
      made, in submission order. */
  datatype Step = Step(manager: ExtraBuilds, subs: seq<Submission>)

  /** The body of the inner loop; `needed` is what `get_needed_harbours`
      returned for the scenario file. */
  function PairStep(m: ExtraBuilds, t: TestSetup, scenario: string, profile: string, needed: seq<string>): (r: Step)
    requires profile in m.helenosTasks
    ensures |needed| == 0 ==> r == Step(m, [TestSub(t, profile, scenario, m.helenosTasks[profile])])
    ensures |needed| > 0 && Build(m, profile, needed).key.None? ==> r == Step(m, [])
    ensures |needed| > 0 && Build(m, profile, needed).key.Some? ==>
              var c := Build(m, profile, needed);
              r.manager == c.manager
              && r.subs == (if c.sub.Some? then [c.sub.value] else []) + [TestSub(t, profile, scenario, c.key.value)]
  {
    if |needed| > 0 then
      var c := Build(m, profile, needed);
      match c.key
      case None => Step(c.manager, [])
      case Some(k) => Step(c.manager, (if c.sub.Some? then [c.sub.value] else []) + [TestSub(t, profile, scenario, k)])
    else
      Step(m, [TestSub(t, profile, scenario, m.helenosTasks[profile])])
  }

  /** The inner loop over the profiles, for one scenario. */
  function ProfileSteps(m: ExtraBuilds, t: TestSetup, scenario: string, profiles: seq<string>,
                        needed: string -> seq<string>): (r: Step)
    requires forall p :: p in profiles ==> p in m.helenosTasks
    ensures r.manager.helenosTasks == m.helenosTasks && r.manager.coastlineTasks == m.coastlineTasks
    decreases |profiles|
  {
    if |profiles| == 0 then Step(m, [])
    else
      var s := PairStep(m, t, scenario, profiles[0], needed(JoinPath(t.scenarioDir, scenario)));
      var rest := ProfileSteps(s.manager, t, scenario, profiles[1..], needed);
      Step(rest.manager, s.subs + rest.subs)
  }

  /** The outer loop over the scenarios. */
  function ScenarioSteps(m: ExtraBuilds, t: TestSetup, scenarios: seq<string>, profiles: seq<string>,
                         needed: string -> seq<string>): (r: Step)
    requires forall p :: p in profiles ==> p in m.helenosTasks
    ensures r.manager.helenosTasks == m.helenosTasks && r.manager.coastlineTasks == m.coastlineTasks
    decreases |scenarios|
  {
    if |scenarios| == 0 then Step(m, [])
    else
      var s := ProfileSteps(m, t, scenarios[0], profiles, needed);
      var rest := ScenarioSteps(s.manager, t, scenarios[1..], profiles, needed);
      Step(rest.manager, s.subs + rest.subs)
  }

  /** `ScheduleTestsTask.run`, given the manager and the dependency data it reads. */
  function ScheduleTests(m: ExtraBuilds, t: TestSetup, helenosTasks: map<string, string>,
                         harbourTasks: map<string, map<string, string>>, scenarios: seq<string>,
                         needed: string -> seq<string>): Step
  {
    var m' := SetDependentTasks(m, helenosTasks, harbourTasks);
    ScenarioSteps(m', t, scenarios, TestedProfiles(helenosTasks), needed)
  }

  /** Every build task the manager can name is registered. */
  ghost predicate ManagerKnown(m: ExtraBuilds, known: set<string>) {
    (forall p :: p in m.helenosTasks ==> m.helenosTasks[p] in known)
    && (forall p, h :: p in m.coastlineTasks && h in m.coastlineTasks[p] ==> m.coastlineTasks[p][h] in known)
    && (forall k :: k in m.scheduled ==> k in known)
  }

  /** An extra build only depends on registered tasks, and its key is
      registered once its submission (if any) is. */
  lemma BuildKnown(m: ExtraBuilds, profile: string, needed: seq<string>, known: set<string>)
    requires ManagerKnown(m, known)
    ensures var c := Build(m, profile, needed);
            var made := if c.sub.Some? then {c.sub.value.id} else {};
            (c.sub.Some? ==> forall d :: d in c.sub.value.deps ==> d in known)
            && (c.key.Some? ==> c.key.value in known + made)
            && ManagerKnown(c.manager, known + made)
  {
    var c := Build(m, profile, needed);
    if c.sub.Some? {
      var sub := c.sub.value;
      forall d | d in sub.deps ensures d in known {
        var i :| 0 <= i < |sub.deps| && sub.deps[i] == d;
        if i > 0 {
          assert d == m.coastlineTasks[profile][Seqs.Sort(needed)[i - 1]];
        }
      }
    }
  }

  /** A one-call batch whose dependencies are registered. */
  lemma SingleKnown(known: set<string>, a: Submission)
    requires forall d :: d in a.deps ==> d in known
    ensures DepsKnownInOrder(known, [a]) && IdSet([a]) == {a.id}
  {
    assert [a] == [a] + [];
    DepsKnownSplit(known, a, []);
    assert Ids([a]) == [a.id];
  }

  /** A two-call batch whose second call may depend on the first. */
  lemma PairKnown(known: set<string>, a: Submission, b: Submission)
    requires forall d :: d in a.deps ==> d in known
    requires forall d :: d in b.deps ==> d in known + {a.id}
    ensures DepsKnownInOrder(known, [a, b]) && IdSet([a, b]) == {a.id, b.id}
  {
    assert [a, b] == [a] + [b];
    DepsKnownSplit(known, a, [b]);
    SingleKnown(known + {a.id}, b);
    assert Ids([a, b]) == [a.id, b.id];
  }

  /** One step only depends on registered tasks and keeps the manager's tasks registered. */
  lemma PairStepKnown(m: ExtraBuilds, t: TestSetup, scenario: string, profile: string, needed: seq<string>,
                      known: set<string>)
    requires profile in m.helenosTasks && ManagerKnown(m, known)
    ensures var r := PairStep(m, t, scenario, profile, needed);
            DepsKnownInOrder(known, r.subs) && ManagerKnown(r.manager, known + IdSet(r.subs))
  {
    var r := PairStep(m, t, scenario, profile, needed);
    if |needed| > 0 {
      var c := Build(m, profile, needed);
      BuildKnown(m, profile, needed, known);
      if c.key.Some? {
        var test := TestSub(t, profile, scenario, c.key.value);
        if c.sub.Some? {
          assert r.subs == [c.sub.value, test];
          PairKnown(known, c.sub.value, test);
        } else {
          assert r.subs == [test];
          SingleKnown(known, test);
        }
      } else {
        assert IdSet([]) == {};
      }
    } else {
      SingleKnown(known, TestSub(t, profile, scenario, m.helenosTasks[profile]));
    }
  }

  /** Two consecutive stretches of the loop compose. */
  lemma ComposeKnown(known: set<string>, a: seq<Submission>, b: seq<Submission>, m: ExtraBuilds)
    requires DepsKnownInOrder(known, a)
    requires DepsKnownInOrder(known + IdSet(a), b)
    requires ManagerKnown(m, known + IdSet(a) + IdSet(b))
    ensures DepsKnownInOrder(known, a + b) && ManagerKnown(m, known + IdSet(a + b))
  {
    DepsKnownConcat(known, a, b);
    assert Ids(a + b) == Ids(a) + Ids(b);
    assert known + IdSet(a) + IdSet(b) == known + IdSet(a + b);
  }

  lemma {:induction false} ProfileStepsKnown(m: ExtraBuilds, t: TestSetup, scenario: string, profiles: seq<string>,
                                             needed: string -> seq<string>, known: set<string>)
    requires forall p :: p in profiles ==> p in m.helenosTasks
    requires ManagerKnown(m, known)
    ensures var r := ProfileSteps(m, t, scenario, profiles, needed);
            DepsKnownInOrder(known, r.subs) && ManagerKnown(r.manager, known + IdSet(r.subs))
    decreases |profiles|
  {
    if |profiles| > 0 {
      var s := PairStep(m, t, scenario, profiles[0], needed(JoinPath(t.scenarioDir, scenario)));
      PairStepKnown(m, t, scenario, profiles[0], needed(JoinPath(t.scenarioDir, scenario)), known);
      var known' := known + IdSet(s.subs);
      ProfileStepsKnown(s.manager, t, scenario, profiles[1..], needed, known');
      var rest := ProfileSteps(s.manager, t, scenario, profiles[1..], needed);
      ComposeKnown(known, s.subs, rest.subs, rest.manager);
    } else {
      assert known + IdSet([]) == known;
    }
  }

  lemma {:induction false} ScenarioStepsKnown(m: ExtraBuilds, t: TestSetup, scenarios: seq<string>, profiles: seq<string>,
                                              needed: string -> seq<string>, known: set<string>)
    requires forall p :: p in profiles ==> p in m.helenosTasks
    requires ManagerKnown(m, known)
    ensures var r := ScenarioSteps(m, t, scenarios, profiles, needed);
            DepsKnownInOrder(known, r.subs) && ManagerKnown(r.manager, known + IdSet(r.subs))
    decreases |scenarios|
  {
    if |scenarios| > 0 {
      var s := ProfileSteps(m, t, scenarios[0], profiles, needed);
      ProfileStepsKnown(m, t, scenarios[0], profiles, needed, known);
      var known' := known + IdSet(s.subs);
      ScenarioStepsKnown(s.manager, t, scenarios[1..], profiles, needed, known');
      var rest := ScenarioSteps(s.manager, t, scenarios[1..], profiles, needed);
      ComposeKnown(known, s.subs, rest.subs, rest.manager);
    } else {
      assert known + IdSet([]) == known;
    }
  }

  /** The test submissions (and the extra builds submitted along with them)
      go through the scheduler without raising, once the HelenOS and harbour
      builds are registered. */
  lemma TestsSubmittable(m: ExtraBuilds, t: TestSetup, helenosTasks: map<string, string>,
                         harbourTasks: map<string, map<string, string>>, scenarios: seq<string>,
                         needed: string -> seq<string>, s: State)
    requires Inv(s)
    requires forall k :: k in m.scheduled ==> k in s.tasks
    requires forall p :: p in helenosTasks ==> helenosTasks[p] in s.tasks
    requires forall p, h :: p in harbourTasks && h in harbourTasks[p] ==> harbourTasks[p][h] in s.tasks
    ensures SubmitAll(s, ScheduleTests(m, t, helenosTasks, harbourTasks, scenarios, needed).subs).Ok?
  {
    var m' := SetDependentTasks(m, helenosTasks, harbourTasks);
    ScenarioStepsKnown(m', t, scenarios, TestedProfiles(helenosTasks), needed, s.tasks.Keys);
    SubmitAllSucceeds(s, ScheduleTests(m, t, helenosTasks, harbourTasks, scenarios, needed).subs);
  }

  // ---------------------------------------------------------------------------
  // TestRunTask.run

  /** What a test run did: the tester command it ran (if any), the artefacts
      it published, and what `run()` returned or raised. */
  datatype TestRunEffect = TestRunEffect(command: Option<seq<string>>, downloads: seq<string>, result: RunResult)

  function TestCommand(tester: string, profile: string, image: string, myDir: string,
                       options: seq<string>, scenarioFile: string): (r: seq<string>)
    ensures |r| == 7 + |options| + 2
    ensures r[0] == tester && r[4] == "--image=" + image
    ensures r[7..7 + |options|] == options
    ensures r[|r| - 2..] == ["--scenario", scenarioFile]
  {
    [tester, "--debug", "--headless", "--arch=" + profile, "--image=" + image,
     "--vterm-dump=" + JoinPath(myDir, "dump.txt"), "--last-screenshot=" + JoinPath(myDir, "screenshot.png")]
    + options + ["--scenario", scenarioFile]
  }

  /** `scenario_name.replace('.yml', '').replace('/', '-').replace('.', '-')`. */
  function ArtefactScenario(scenario: string): string {
    ReplaceChar(ReplaceChar(ReplaceAll(scenario, ".yml", ""), '/', '-'), '.', '-')
  }

  /** `TestRunTask.run`. `ctx` is the data of its dependency (the build),
      `show` is `str.format` on a non-string image, `run` what the tester
      command did. A failing tester raises out of `run_command`. */
  function TestRun(profile: string, scenario: string, scenarioFile: string, tester: string, options: seq<string>,
                   ctx: Context, show: Value -> string, run: CommandRun): (r: TestRunEffect)
    ensures GetData(ctx, "image") == Ok(VNone) && GetData(ctx, "dir").Ok? ==>
              r == TestRunEffect(None, [], Returned(VBool(false)))
    ensures r.command.Some? ==>
              GetData(ctx, "image").Ok? && GetData(ctx, "image").value != VNone
              && |r.command.value| >= 2 && r.command.value[|r.command.value| - 2..] == ["--scenario", scenarioFile]
    ensures r.result == Returned(VBool(true)) <==> r.command.Some? && run.rc == 0
    ensures r.command.Some? && run.rc != 0 ==> r.result == Raised(CommandFailure(r.command.value, run.lastLine))
    ensures r.downloads != [] <==> r.result == Returned(VBool(true))
  {
    match GetData(ctx, "image")
    case Err(e) => TestRunEffect(None, [], Raised(e))
    case Ok(image) =>
      match GetData(ctx, "dir")
      case Err(e) => TestRunEffect(None, [], Raised(e))
      case Ok(dir) =>
        if image == VNone then TestRunEffect(None, [], Returned(VBool(false)))
        else if !dir.VStr? then TestRunEffect(None, [], Raised(TypeErrorMessage))
        else
          var text := if image.VStr? then image.s else show(image);
          var command := TestCommand(tester, profile, text, dir.s, options, scenarioFile);
          match RunCommand(command, run)
          case Err(e) => TestRunEffect(Some(command), [], Raised(e))
          case Ok(_) =>
            var flat := ArtefactScenario(scenario);
            TestRunEffect(Some(command),
                          [Flat(profile) + "/test-" + flat + "-screen.png", Flat(profile) + "/test-" + flat + "-vterm.txt"],
                          Returned(VBool(true)))
  }

  /** The data of a task's only dependency is what `get_data` reads. */
  lemma SingleDependency(dep: string, data: Value, key: string, v: Value)
    requires data.VDict? && key in data.entries && data.entries[key] == v
    ensures GetData([(dep, data)], key) == Ok(v)
  {
    assert ProbeKey(data, key) == Found(v);
  }

  /** As written, a test run never starts the tester: the build it depends
      on hands over None as its image, so the run returns False and the test
      is recorded as failed. */
  lemma AsWrittenTestRunsFail(dep: string, srcDir: string, buildProfile: string, image: Option<string>, myDir: string,
                              exec: seq<string> -> CommandRun, profile: string, scenario: string, scenarioFile: string,
                              tester: string, options: seq<string>, show: Value -> string, run: CommandRun)
    requires AllSucceed(BuildSteps(srcDir, myDir, buildProfile), exec)
    ensures var build := Execute(BuildRunAsWritten(srcDir, buildProfile, image, myDir, exec));
            var test := TestRun(profile, scenario, scenarioFile, tester, options, [(dep, build.data)], show, run);
            build.status == Succeeded && test.command.None?
            && Execute(test.result) == Outcome(Failed, EmptyData, Some(ReturnedFalseReason))
  {
    var build := Execute(BuildRunAsWritten(srcDir, buildProfile, image, myDir, exec));
    BuildDataEntries(VNone, image, myDir);
    assert build.data == BuildData(VNone, image, myDir);
    SingleDependency(dep, build.data, "image", VNone);
    SingleDependency(dep, build.data, "dir", VStr(myDir));
  }

  /** With the build handing over the published image's path, a build with
      an image makes the test run start the tester on that image. */
  lemma CorrectedTestRunUsesImage(dep: string, srcDir: string, profile: string, image: string, myDir: string,
                                  artefactDir: string, exec: seq<string> -> CommandRun, scenario: string,
                                  scenarioFile: string, tester: string, options: seq<string>,
                                  show: Value -> string, run: CommandRun)
    requires AllSucceed(BuildSteps(srcDir, myDir, profile), exec)
    ensures var build := Execute(BuildRun(srcDir, profile, Some(image), myDir, artefactDir, exec));
            var test := TestRun(profile, scenario, scenarioFile, tester, options, [(dep, build.data)], show, run);
            test.command == Some(TestCommand(tester, profile, ArtefactPath(artefactDir, TargetImageName(profile, image)),
                                             myDir, options, scenarioFile))
  {
    var r := BuildRun(srcDir, profile, Some(image), myDir, artefactDir, exec);
    var path := ArtefactPath(artefactDir, TargetImageName(profile, image));
    assert PublishedImage(profile, Some(image), artefactDir) == VStr(path);
    assert r.Returned? && r.v != VNone;
    var build := Execute(r);
    assert build.data == r.v;
    SingleDependency(dep, build.data, "image", VStr(path));
    SingleDependency(dep, build.data, "dir", VStr(myDir));
    TestRunStartsTester(profile, scenario, scenarioFile, tester, options, [(dep, build.data)], show, run, path, myDir);
  }

  /** A build that hands over an image path and a directory makes the test
      run start the tester on that image. */
  lemma TestRunStartsTester(profile: string, scenario: string, scenarioFile: string, tester: string,
                            options: seq<string>, ctx: Context, show: Value -> string, run: CommandRun,
                            image: string, dir: string)
    requires GetData(ctx, "image") == Ok(VStr(image)) && GetData(ctx, "dir") == Ok(VStr(dir))
    ensures TestRun(profile, scenario, scenarioFile, tester, options, ctx, show, run).command
            == Some(TestCommand(tester, profile, image, dir, options, scenarioFile))
  {
  }
}
