/** The task side of hbuild/scheduler.py: the values tasks exchange, how a
    `run()` result becomes a terminal outcome (`Task.execute` and the handling
    in `task_run_inner`), and the `TaskController` helpers a running task uses
    to read its dependencies' data, build a result and keep its log tail. */
module Tasks {
  import opened Wrappers
  import opened Strings
  import Seqs

  /** The Python values that flow between tasks. */
  datatype Value =
    | VNone
    | VBool(b: bool)
    | VInt(i: int)
    | VStr(s: string)
    | VList(items: seq<Value>)
    | VDict(entries: map<string, Value>)

  /** Python's `v == False` (also true of the integer 0). */
  predicate EqualsFalse(v: Value) {
    v == VBool(false) || v == VInt(0)
  }

  /** Python's `v == True` (also true of the integer 1). */
  predicate EqualsTrue(v: Value) {
    v == VBool(true) || v == VInt(1)
  }

  const EmptyData: Value := VDict(map[])

  /** What a task's `run()` did: returned a value or raised an exception. */
  datatype RunResult = Returned(v: Value) | Raised(msg: string)

  /** `TaskWrapper.status`: 'n/a' until the task completes, then 'ok', 'fail' or 'skip'. */
  datatype Status = NotAvailable | Succeeded | Failed | Skipped

  predicate Terminal(s: Status) {
    s != NotAvailable
  }

  /** The status, data and reason a worker writes into the wrapper. */
  datatype Outcome = Outcome(status: Status, data: Value, reason: Option<string>)

  const ReturnedFalseReason := "run() returned False"

  /** `Task.execute` followed by the result handling of `task_run_inner` for a
      task that was allowed to run. */
  function Execute(r: RunResult): (o: Outcome)
    ensures o.status == Succeeded <==> r.Returned? && !EqualsFalse(r.v)
    ensures o.status == Failed <==> !(r.Returned? && !EqualsFalse(r.v))
    ensures o.status == Succeeded ==> o.reason.None? && o.data == (if r.v == VNone then EmptyData else r.v)
    ensures o.status == Failed ==> o.data == EmptyData
    ensures r.Raised? ==> o.reason == Some(r.msg)
    ensures r.Returned? && EqualsFalse(r.v) ==> o.reason == Some(ReturnedFalseReason)
  {
    match r
    case Raised(msg) => Outcome(Failed, EmptyData, Some(msg))
    case Returned(v) =>
      if EqualsFalse(v) then Outcome(Failed, EmptyData, Some(ReturnedFalseReason))
      else if v == VNone then Outcome(Succeeded, EmptyData, None)
      else Outcome(Succeeded, v, None)
  }

  /** The reason written for a skipped task. */
  function SkipReason(dep: string): string {
    "dependency " + dep + " failed (or also skipped)."
  }

  // ---------------------------------------------------------------------------
  // TaskController: dependency data

  /** The `data` dict handed to a task's controller: dependency id to that
      dependency's data, in dependency order (a repeated id keeps its first slot). */
  type Context = seq<(string, Value)>

  function ContextKeys(ctx: Context): seq<string> {
    seq(|ctx|, i requires 0 <= i < |ctx| => ctx[i].0)
  }

  /** Builds the dependency data dict (scheduler.py:409-414). */
  function BuildContext(acc: Context, deps: seq<string>, dataOf: map<string, Value>): (ctx: Context)
    requires forall d :: d in deps ==> d in dataOf
    requires forall i :: 0 <= i < |acc| ==> acc[i].0 in dataOf && acc[i].1 == dataOf[acc[i].0]
    ensures forall i :: 0 <= i < |ctx| ==> ctx[i].0 in dataOf && ctx[i].1 == dataOf[ctx[i].0]
    ensures forall d :: d in deps ==> d in ContextKeys(ctx)
    ensures forall k :: k in ContextKeys(acc) ==> k in ContextKeys(ctx)
    ensures forall k :: k in ContextKeys(ctx) ==> k in ContextKeys(acc) || k in deps
    ensures Seqs.NoDup(ContextKeys(acc)) ==> Seqs.NoDup(ContextKeys(ctx))
    decreases |deps|
  {
    if |deps| == 0 then acc
    else if deps[0] in ContextKeys(acc) then
      BuildContext(acc, deps[1..], dataOf)
    else
      var acc' := acc + [(deps[0], dataOf[deps[0]])];
      assert ContextKeys(acc') == ContextKeys(acc) + [deps[0]];
      BuildContext(acc', deps[1..], dataOf)
  }

  /** The ids of `ctx` from position `from` on are dependencies, listed in the
      order of their first occurrence in `deps`. */
  predicate InDepsOrder(ctx: Context, from: nat, deps: seq<string>) {
    && (forall i :: from <= i < |ctx| ==> ctx[i].0 in deps)
    && forall i, j :: from <= i < j < |ctx| ==> Seqs.IndexOf(deps, ctx[i].0) < Seqs.IndexOf(deps, ctx[j].0)
  }

  /** `ctx` extends `acc`: the entries of `acc` stay first and in place, and
      after them come dependencies not in `acc`, in the order of their first
      occurrence in `deps`. */
  predicate ContextOrder(acc: Context, ctx: Context, deps: seq<string>) {
    && |acc| <= |ctx| && ctx[..|acc|] == acc
    && (forall i :: |acc| <= i < |ctx| ==> ctx[i].0 !in ContextKeys(acc))
    && InDepsOrder(ctx, |acc|, deps)
  }

  /** The order of the dependency data dict: a Python dict keeps insertion
      order and re-assigning a key keeps its slot, so each dependency not yet
      present is added once, in the order of its first occurrence in `deps`. */
  lemma {:induction false} BuildContextOrder(acc: Context, deps: seq<string>, dataOf: map<string, Value>)
    requires forall d :: d in deps ==> d in dataOf
    requires forall i :: 0 <= i < |acc| ==> acc[i].0 in dataOf && acc[i].1 == dataOf[acc[i].0]
    ensures ContextOrder(acc, BuildContext(acc, deps, dataOf), deps)
    decreases |deps|
  {
    if |deps| == 0 {
    } else if deps[0] in ContextKeys(acc) {
      BuildContextOrder(acc, deps[1..], dataOf);
      OrderPresentStep(acc, BuildContext(acc, deps[1..], dataOf), deps);
    } else {
      var acc' := acc + [(deps[0], dataOf[deps[0]])];
      assert ContextKeys(acc') == ContextKeys(acc) + [deps[0]];
      BuildContextOrder(acc', deps[1..], dataOf);
      OrderNewStep(acc, acc', BuildContext(acc', deps[1..], dataOf), deps);
    }
  }

  /** A dependency already present adds nothing. */
  lemma OrderPresentStep(acc: Context, ctx: Context, deps: seq<string>)
    requires |deps| > 0 && deps[0] in ContextKeys(acc)
    requires ContextOrder(acc, ctx, deps[1..])
    ensures ContextOrder(acc, ctx, deps)
  {
    assert forall i :: |acc| <= i < |ctx| ==> ctx[i].0 != deps[0];
    OrderAfterHead(ctx, |acc|, deps);
  }

  /** A new dependency is added right after the entries already present. */
  lemma OrderNewStep(acc: Context, acc': Context, ctx: Context, deps: seq<string>)
    requires |deps| > 0 && deps[0] !in ContextKeys(acc)
    requires |acc'| == |acc| + 1 && acc'[..|acc|] == acc && acc'[|acc|].0 == deps[0]
    requires ContextKeys(acc') == ContextKeys(acc) + [deps[0]]
    requires ContextOrder(acc', ctx, deps[1..])
    ensures ContextOrder(acc, ctx, deps)
  {
    assert ctx[..|acc|] == acc'[..|acc|] == acc;
    assert ctx[|acc|] == acc'[|acc|];
    assert forall i :: |acc'| <= i < |ctx| ==> ctx[i].0 != deps[0];
    OrderAfterHead(ctx, |acc'|, deps);
  }

  /** Positions in `deps[1..]` shift by one in `deps` for every id other than
      `deps[0]`, and `deps[0]` itself comes first. */
  lemma OrderAfterHead(ctx: Context, from: nat, deps: seq<string>)
    requires |deps| > 0 && InDepsOrder(ctx, from, deps[1..])
    requires forall i :: from <= i < |ctx| ==> ctx[i].0 != deps[0]
    ensures InDepsOrder(ctx, from, deps)
    ensures 0 < from <= |ctx| && ctx[from - 1].0 == deps[0] ==> InDepsOrder(ctx, from - 1, deps)
  {
    assert forall i :: from <= i < |ctx| ==> Seqs.IndexOf(deps, ctx[i].0) == 1 + Seqs.IndexOf(deps[1..], ctx[i].0);
  }

  /** Outcome of `key in data` followed by `data[key]` on one dependency's data. */
  datatype Probe = Found(v: Value) | Missing | TypeError

  function ProbeKey(data: Value, key: string): Probe {
    match data
    case VDict(m) => if key in m then Found(m[key]) else Missing
    // `key in s` is a substring test, then `s[key]` raises
    case VStr(s) => if Contains(s, key) then TypeError else Missing
    // `key in l` compares elements, then `l[key]` raises
    case VList(items) => if VStr(key) in items then TypeError else Missing
    // `in` itself raises on None, bool and int
    case _ => TypeError
  }

  /** Stand-ins for the text of Python's own `TypeError` and `KeyError`. */
  const TypeErrorMessage := "TypeError"
  const KeyErrorMessage := "KeyError"

  function UnknownKey(key: string): string {
    "WARN: unknown key " + key
  }

  /** Dependency `i` is the first whose data answers `key in data`: every
      earlier one's data lacks the key. */
  predicate FirstAnswer(ctx: Context, key: string, i: int) {
    && 0 <= i < |ctx| && ProbeKey(ctx[i].1, key) != Missing
    && forall k :: 0 <= k < i ==> ProbeKey(ctx[k].1, key) == Missing
  }

  /** `TaskController.get_data`: the value stored under `key` by the first
      dependency (in dependency order) that has it. */
  function GetData(ctx: Context, key: string): (r: Result<Value>)
    ensures r == Err(UnknownKey(key)) <==> forall i :: 0 <= i < |ctx| ==> ProbeKey(ctx[i].1, key) == Missing
    ensures r.Ok? ==> exists i :: FirstAnswer(ctx, key, i) && ProbeKey(ctx[i].1, key) == Found(r.value)
    // the first dependency whose data answers decides: its value, or the TypeError
    ensures forall i :: FirstAnswer(ctx, key, i) && ProbeKey(ctx[i].1, key).Found?
                        ==> r == Ok(ProbeKey(ctx[i].1, key).v)
    ensures forall i :: FirstAnswer(ctx, key, i) && ProbeKey(ctx[i].1, key) == TypeError
                        ==> r == Err(TypeErrorMessage)
    decreases |ctx|
  {
    if |ctx| == 0 then Err(UnknownKey(key))
    else
      match ProbeKey(ctx[0].1, key)
      case Found(v) =>
        assert forall i :: FirstAnswer(ctx, key, i) ==> i == 0;
        Ok(v)
      case TypeError =>
        assert forall i :: FirstAnswer(ctx, key, i) ==> i == 0;
        Err(TypeErrorMessage)
      case Missing =>
        var r := GetData(ctx[1..], key);
        FirstAnswerShift(ctx, key);
        r
  }

  /** Past a dependency without the key, the first answer moves one place. */
  lemma FirstAnswerShift(ctx: Context, key: string)
    requires |ctx| > 0 && ProbeKey(ctx[0].1, key) == Missing
    ensures forall i :: FirstAnswer(ctx, key, i) <==> i > 0 && FirstAnswer(ctx[1..], key, i - 1)
    ensures (forall i :: 0 <= i < |ctx| ==> ProbeKey(ctx[i].1, key) == Missing)
            <==> (forall i :: 0 <= i < |ctx[1..]| ==> ProbeKey(ctx[1..][i].1, key) == Missing)
  {
    assert forall i :: 0 < i < |ctx| ==> ctx[i] == ctx[1..][i - 1];
  }

  /** Python's dict lookup on a context: `self.data[dep]`. */
  function Lookup(ctx: Context, dep: string): (r: Option<Value>)
    ensures r.Some? <==> dep in ContextKeys(ctx)
    decreases |ctx|
  {
    if |ctx| == 0 then None
    else if ctx[0].0 == dep then
      assert ContextKeys(ctx)[0] == dep;
      Some(ctx[0].1)
    else
      assert ContextKeys(ctx) == [ctx[0].0] + ContextKeys(ctx[1..]);
      Lookup(ctx[1..], dep)
  }

  /** `TaskController.get_dependency_data`: without a key it is `get_data(dep)`;
      with one it indexes that dependency's data directly. */
  function GetDependencyData(ctx: Context, dep: string, key: Option<string>): (r: Result<Value>)
    ensures key.None? ==> r == GetData(ctx, dep)
    ensures key.Some? && r.Ok? ==>
              Lookup(ctx, dep).Some? && Lookup(ctx, dep).value.VDict?
              && key.value in Lookup(ctx, dep).value.entries
              && r.value == Lookup(ctx, dep).value.entries[key.value]
    ensures key.Some? && Lookup(ctx, dep).Some? && Lookup(ctx, dep).value.VDict?
            && key.value in Lookup(ctx, dep).value.entries
            ==> r == Ok(Lookup(ctx, dep).value.entries[key.value])
    ensures key.Some? && dep !in ContextKeys(ctx) ==> r == Err(KeyErrorMessage)
    ensures key.Some? && Lookup(ctx, dep).Some? && Lookup(ctx, dep).value.VDict?
            && key.value !in Lookup(ctx, dep).value.entries
            ==> r == Err(KeyErrorMessage)
    ensures key.Some? && Lookup(ctx, dep).Some? && !Lookup(ctx, dep).value.VDict? ==> r == Err(TypeErrorMessage)
  {
    match key
    case None => GetData(ctx, dep)
    case Some(k) =>
      match Lookup(ctx, dep)
      case None => Err(KeyErrorMessage)
      case Some(VDict(m)) => if k in m then Ok(m[k]) else Err(KeyErrorMessage)
      case Some(_) => Err(TypeErrorMessage)
  }

  // ---------------------------------------------------------------------------
  // TaskController.run_command

  /** What an external command did: its exit code and the last line it
      printed. Running it is left to the caller. */
  datatype CommandRun = CommandRun(rc: int, lastLine: string)

  /** The message of the `RunCommandException` raised for a failing command. */
  function CommandFailure(cmd: seq<string>, lastLine: string): string {
    "`" + Join(cmd, " ") + "' failed: " + lastLine
  }

  /** `run_command`, giving the `failed` entry of its result: a non-zero exit
      code raises, so a result that is returned never reports a failure. */
  function RunCommand(cmd: seq<string>, run: CommandRun): (r: Result<bool>)
    ensures r.Err? <==> run.rc != 0
    ensures r.Err? ==> r.msg == CommandFailure(cmd, run.lastLine)
    ensures r.Ok? ==> !r.value
  {
    if run.rc != 0 then Err(CommandFailure(cmd, run.lastLine)) else Ok(run.rc != 0)
  }

  /** Every command exits with 0. */
  predicate AllSucceed(cmds: seq<seq<string>>, exec: seq<string> -> CommandRun) {
    forall i :: 0 <= i < |cmds| ==> exec(cmds[i]).rc == 0
  }

  /** Command `i` is the first one that exits with a non-zero code. */
  predicate FirstFailure(cmds: seq<seq<string>>, exec: seq<string> -> CommandRun, i: nat) {
    i < |cmds| && exec(cmds[i]).rc != 0 && forall j :: 0 <= j < i ==> exec(cmds[j]).rc == 0
  }

  /** Commands run one after another with `run_command`: the first one that
      fails raises and the rest are not run. `exec` gives what each command
      does. */
  function RunCommands(cmds: seq<seq<string>>, exec: seq<string> -> CommandRun): (r: Result<()>)
    ensures r.Ok? <==> AllSucceed(cmds, exec)
    ensures r.Err? ==> exists i: nat :: FirstFailure(cmds, exec, i)
                                   && r.msg == CommandFailure(cmds[i], exec(cmds[i]).lastLine)
    decreases |cmds|
  {
    if |cmds| == 0 then Ok(())
    else
      match RunCommand(cmds[0], exec(cmds[0]))
      case Err(e) =>
        assert FirstFailure(cmds, exec, 0);
        Err(e)
      case Ok(_) =>
        var r := RunCommands(cmds[1..], exec);
        assert forall i :: 1 <= i < |cmds| ==> cmds[i] == cmds[1..][i - 1];
        if r.Err? then
          var i: nat :| FirstFailure(cmds[1..], exec, i) && r.msg == CommandFailure(cmds[1..][i], exec(cmds[1..][i]).lastLine);
          assert FirstFailure(cmds, exec, i + 1);
          r
        else r
  }

  // ---------------------------------------------------------------------------
  // TaskController: ret() and the log tail

  /** `TaskController.ret(*args, **kwargs)`: the dict `{'status': ...,
      'data': kwargs}` a task may return. */
  function Ret(args: seq<Value>, kwargs: map<string, Value>): (r: Value)
    ensures r.VDict? && r.entries.Keys == {"status", "data"}
    ensures r.entries["data"] == VDict(kwargs)
    ensures |args| != 1 || EqualsTrue(args[0]) ==> r.entries["status"] == VStr("ok")
    ensures |args| == 1 && EqualsFalse(args[0]) ==> r.entries["status"] == VStr("fail")
    ensures |args| == 1 && !EqualsTrue(args[0]) && !EqualsFalse(args[0]) ==> r.entries["status"] == args[0]
  {
    var status :=
      if |args| != 1 then VStr("ok")
      else if EqualsTrue(args[0]) then VStr("ok")
      else if EqualsFalse(args[0]) then VStr("fail")
      else args[0];
    VDict(map["status" := status, "data" := VDict(kwargs)])
  }

  /** Returning what `ret` builds never fails a task, not even `ret(False)`:
      the dict is neither False nor None, so the task succeeds and keeps
      it as its data. */
  lemma RetNeverFails(args: seq<Value>, kwargs: map<string, Value>)
    ensures Execute(Returned(Ret(args, kwargs))) == Outcome(Succeeded, Ret(args, kwargs), None)
  {
  }

  const LogTailLength := 10

  function Min(a: int, b: int): int { if a <= b then a else b }

  /** The last `min(n, |xs|)` elements of `xs`. */
  function LastN<T>(xs: seq<T>, n: nat): seq<T> {
    xs[|xs| - Min(n, |xs|)..]
  }

  /** `append_line_to_log_file`'s bookkeeping of `log_tail`. */
  function AppendLine(tail: seq<string>, line: string): (r: seq<string>)
    ensures |r| == Min(|tail| + 1, LogTailLength)
    ensures r[|r| - 1] == line
    ensures forall i :: 0 <= i < |r| - 1 ==> r[i] == tail[|tail| - |r| + 1 + i]
  {
    var all := tail + [line];
    all[|all| - Min(|all|, LogTailLength)..]
  }

  function AppendLines(tail: seq<string>, lines: seq<string>): seq<string>
    decreases |lines|
  {
    if |lines| == 0 then tail else AppendLines(AppendLine(tail, lines[0]), lines[1..])
  }

  /** After any sequence of appends the tail is exactly the last ten lines
      written (of the old tail followed by the new lines). */
  lemma {:induction false} LogTailKeepsLastLines(tail: seq<string>, lines: seq<string>)
    requires |tail| <= LogTailLength
    ensures AppendLines(tail, lines) == LastN(tail + lines, LogTailLength)
    decreases |lines|
  {
    if |lines| == 0 {
      assert tail + lines == tail;
    } else {
      var t' := AppendLine(tail, lines[0]);
      assert t' == LastN(tail + [lines[0]], LogTailLength);
      LogTailKeepsLastLines(t', lines[1..]);
      var all := tail + lines;
      var mid := tail + [lines[0]];
      assert all == mid + lines[1..];
      var n := |t' + lines[1..]|;
      assert LastN(t' + lines[1..], LogTailLength) == LastN(all, LogTailLength) by {
        assert t' == mid[|mid| - |t'|..];
        assert t' + lines[1..] == all[|all| - n..];
        assert Min(LogTailLength, n) == Min(LogTailLength, |all|);
      }
    }
  }

  // ---------------------------------------------------------------------------
  // Submissions made by the scheduling tasks

  /** The task objects the scheduling tasks submit, by class and arguments. */
  datatype Work =
    | HelenOSBuildWork(profile: string, buildDirBasename: string, srcDir: Value, image: Option<string>)
    | ExtraBuildWork(profile: string, harbours: seq<string>)
    | CoastlineFetchWork(harbour: string)
    | CoastlinePrebuildWork(profile: string, buildDirBasename: string, archiveFormat: string)
    | CoastlineBuildWork(harbour: string, profile: string, archiveFormat: string)
    | TestRunWork(profile: string, scenario: string, scenarioFile: string, tester: string, options: seq<string>)
    | OtherWork(name: string)

  /** One call `scheduler.submit(description, id, task, deps, mutexes)`. */
  datatype Submission = Submission(description: string, id: string, work: Work, deps: seq<string>, mutexes: seq<string>)
}
