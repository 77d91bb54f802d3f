/** The tasks a test scenario is made of (htest/tasks.py): booting the
    machine, typing a command and judging its output, clearing the screen.

    The terminal lines a command task reads are an input: each element of
    `captures` is what one `capture_vterm` added to `vterm` while the task
    waited for the command to finish. Timing and retries are left out. */
module ScenarioTasks {
  import opened Wrappers
  import opened Strings

  /** `ScenarioTask.check_required_argument`. */
  function CheckRequiredArgument<V>(args: map<string, V>, name: string): (r: Result<()>)
    ensures r.Err? <==> name !in args
    ensures r.Err? ==> r.msg == "Required argument " + name + " missing."
  {
    if name !in args then Err("Required argument " + name + " missing.") else Ok(())
  }

  // ---------------------------------------------------------------------------
  // The task kinds

  /** The arguments of a `command` step: a bare string, or a mapping of
      string-valued options (`args`, `assert`, `negassert`) plus the flag
      `ignoreabort`. */
  datatype CommandArgs =
    | Plain(s: string)
    | Fields(fields: map<string, string>, ignoreAbort: Option<bool>)

  datatype Command = Command(command: string, ignoreAbort: bool, args: map<string, string>)

  datatype Task = Boot | Run(cmd: Command) | Cls

  /** The name each task kind passes to `ScenarioTask.__init__`. */
  function TaskName(t: Task): string {
    match t
    case Boot => "boot"
    case Run(_) => "command"
    case Cls => "vterm-cls"
  }

  /** `is_vm_launcher`: overridden to `True` by the boot task only. */
  predicate IsVmLauncher(t: Task) {
    t.Boot?
  }

  /** The boot task, and no other, starts a machine. */
  lemma OnlyBootLaunches(t: Task)
    ensures IsVmLauncher(t) <==> TaskName(t) == "boot"
  {
    if t.Run? {
      assert TaskName(t)[0] == 'c';
    } else if t.Cls? {
      assert TaskName(t)[0] == 'v';
    }
  }

  /** `ScenarioTaskCommand.__init__`: a bare string is the command itself;
      otherwise `args` is required and `ignoreabort` defaults to false. */
  function NewCommand(a: CommandArgs): (r: Result<Command>)
    ensures r.Err? <==> a.Fields? && "args" !in a.fields
    ensures r.Err? ==> r.msg == "Required argument args missing."
    ensures r.Ok? && a.Plain? ==> r.value.command == a.s && !r.value.ignoreAbort
    ensures r.Ok? && a.Fields? ==> r.value.command == a.fields["args"] && r.value.args == a.fields
                                   && (r.value.ignoreAbort <==> a.ignoreAbort == Some(true))
  {
    var fields := if a.Plain? then map["args" := a.s] else a.fields;
    var ignore := if a.Fields? && a.ignoreAbort.Some? then a.ignoreAbort.value else false;
    match CheckRequiredArgument(fields, "args")
    case Err(e) => Err(e)
    case Ok(_) => Ok(Command(fields["args"], ignore, fields))
  }

  /** A bare string behaves exactly like a mapping holding only `args`. */
  lemma PlainIsArgsField(s: string)
    ensures NewCommand(Plain(s)) == NewCommand(Fields(map["args" := s], None))
  {
  }

  // ---------------------------------------------------------------------------
  // ScenarioTaskCommand._grep

  /** Some line contains `text`. */
  function Grep(text: string, lines: seq<string>): (r: bool)
    ensures r <==> exists i :: 0 <= i < |lines| && Contains(lines[i], text)
    decreases |lines|
  {
    if |lines| == 0 then false
    else if Contains(lines[0], text) then true
    else
      var r := Grep(text, lines[1..]);
      assert forall i :: 1 <= i < |lines| ==> lines[i] == lines[1..][i - 1];
      if r then
        var i :| 0 <= i < |lines[1..]| && Contains(lines[1..][i], text);
        assert lines[i + 1] == lines[1..][i];
        true
      else false
  }

  /** Searching two batches of lines is searching each. */
  lemma GrepAppend(text: string, a: seq<string>, b: seq<string>)
    ensures Grep(text, a + b) <==> Grep(text, a) || Grep(text, b)
  {
    if Grep(text, a + b) {
      var i :| 0 <= i < |a + b| && Contains((a + b)[i], text);
      if i >= |a| {
        assert (a + b)[i] == b[i - |a|];
      }
    }
    if Grep(text, a) {
      var i :| 0 <= i < |a| && Contains(a[i], text);
      assert (a + b)[i] == a[i];
    }
    if Grep(text, b) {
      var i :| 0 <= i < |b| && Contains(b[i], text);
      assert (a + b)[|a| + i] == b[i];
    }
  }

  /** The empty text is found in any non-empty batch of lines, even of
      empty lines. */
  lemma GrepEmptyText(lines: seq<string>)
    ensures Grep("", lines) <==> |lines| > 0
  {
    if |lines| > 0 {
      assert OccursAt(lines[0], "", 0);
    }
  }

  // ---------------------------------------------------------------------------
  // The verdict on one batch of captured lines

  datatype Verdict = Continue | Done | Fail(msg: string)

  const Prompt := "# _"

  /** An abort message of the shell. */
  predicate Aborted(lines: seq<string>) {
    Grep("Cannot spawn", lines) || Grep("Command failed", lines)
  }

  /** The checks of the second loop of `ScenarioTaskCommand.run`, in their
      order: an abort message, the forbidden text, then the prompt with the
      expected text. */
  function Judge(c: Command, lines: seq<string>): (r: Verdict)
    ensures r == Fail("Failed to run command") <==> !c.ignoreAbort && Aborted(lines)
    ensures (c.ignoreAbort || !Aborted(lines)) ==>
              (r.Fail? <==> ("negassert" in c.args && Grep(c.args["negassert"], lines))
                            || (Grep(Prompt, lines) && "assert" in c.args && !Grep(c.args["assert"], lines)))
    ensures r == Done <==> (c.ignoreAbort || !Aborted(lines))
                           && !("negassert" in c.args && Grep(c.args["negassert"], lines))
                           && Grep(Prompt, lines)
                           && ("assert" in c.args ==> Grep(c.args["assert"], lines))
    ensures r == Continue <==> (c.ignoreAbort || !Aborted(lines))
                               && !("negassert" in c.args && Grep(c.args["negassert"], lines))
                               && !Grep(Prompt, lines)
  {
    if !c.ignoreAbort && Aborted(lines) then Fail("Failed to run command")
    else if "negassert" in c.args && Grep(c.args["negassert"], lines) then
      Fail("Found forbidden text " + c.args["negassert"] + " ...")
    else if Grep(Prompt, lines) then
      if "assert" in c.args && !Grep(c.args["assert"], lines) then
        Fail("Missing expected text " + c.args["assert"] + " ...")
      else Done
    else Continue
  }

  /** With `ignoreabort` set the verdict differs only where the abort
      message decided it. */
  lemma IgnoreAbortOnlyRelaxes(c: Command, lines: seq<string>)
    ensures (Judge(c.(ignoreAbort := true), lines) != Judge(c.(ignoreAbort := false), lines))
            ==> Aborted(lines) && Judge(c.(ignoreAbort := false), lines) == Fail("Failed to run command")
  {
  }

  /** `run` reads batches until one is not `Continue` and ends with that
      verdict; running out of batches is the timeout. */
  function Outcome(c: Command, captures: seq<seq<string>>): (r: Verdict)
    ensures r != Continue ==> exists i :: 0 <= i < |captures| && Judge(c, captures[i]) == r
                                          && forall j :: 0 <= j < i ==> Judge(c, captures[j]) == Continue
    ensures r == Continue <==> forall j :: 0 <= j < |captures| ==> Judge(c, captures[j]) == Continue
    decreases |captures|
  {
    if |captures| == 0 then Continue
    else
      var v := Judge(c, captures[0]);
      if v != Continue then v
      else
        var r := Outcome(c, captures[1..]);
        assert forall j :: 1 <= j < |captures| ==> captures[j] == captures[1..][j - 1];
        if r != Continue then
          var i :| 0 <= i < |captures[1..]| && Judge(c, captures[1..][i]) == r
                   && forall j :: 0 <= j < i ==> Judge(c, captures[1..][j]) == Continue;
          assert captures[i + 1] == captures[1..][i];
          assert forall j :: 1 <= j < i + 1 ==> Judge(c, captures[j]) == Continue by {
            forall j | 1 <= j < i + 1 ensures Judge(c, captures[j]) == Continue {
              assert captures[j] == captures[1..][j - 1];
            }
          }
          r
        else r
  }

  /** Batches read after the verdict do not matter. */
  lemma {:induction false} OutcomeIgnoresLater(c: Command, captures: seq<seq<string>>, later: seq<seq<string>>)
    requires Outcome(c, captures) != Continue
    ensures Outcome(c, captures + later) == Outcome(c, captures)
    decreases |captures|
  {
    assert (captures + later)[0] == captures[0];
    if Judge(c, captures[0]) == Continue {
      assert (captures + later)[1..] == captures[1..] + later;
      OutcomeIgnoresLater(c, captures[1..], later);
    }
  }

  // ---------------------------------------------------------------------------
  // Typing the command

  /** The first loop of `run`: the command counts as typed when the first
      new line, stripped and without one trailing cursor `_`, ends with the
      stripped command. */
  predicate Typed(lines: seq<string>, command: string) {
    |lines| > 0 &&
    var line := Strip(lines[0]);
    var shown := if EndsWith(line, "_") then line[..|line| - 1] else line;
    EndsWith(shown, Strip(command))
  }

  /** The echo of the command is found whether or not the cursor follows it. */
  lemma TypedEcho(lines: seq<string>, prompt: string, command: string)
    requires |lines| > 0 && (Strip(lines[0]) == prompt + Strip(command) + "_"
                             || (Strip(lines[0]) == prompt + Strip(command) && !EndsWith(prompt + Strip(command), "_")))
    ensures Typed(lines, command)
  {
    var line := Strip(lines[0]);
    var c := Strip(command);
    if line == prompt + c + "_" {
      assert line[|line| - 1..] == "_";
      assert line[..|line| - 1] == prompt + c;
      assert (prompt + c)[|prompt + c| - |c|..] == c;
    } else {
      assert (prompt + c)[|prompt + c| - |c|..] == c;
    }
  }

  /** What can count as typed: the stripped first line ends with the
      command, possibly followed by the cursor. */
  lemma TypedShape(lines: seq<string>, command: string)
    requires Typed(lines, command)
    ensures EndsWith(Strip(lines[0]), Strip(command)) || EndsWith(Strip(lines[0]), Strip(command) + "_")
  {
    var line := Strip(lines[0]);
    var c := Strip(command);
    if EndsWith(line, "_") {
      var shown := line[..|line| - 1];
      assert line == shown + "_";
      assert line[|line| - |c + "_"|..] == shown[|shown| - |c|..] + "_";
    }
  }

  // ---------------------------------------------------------------------------
  // ScenarioTaskCls.run

  /** The keys `cls` types: thirty newlines. */
  function ClsKeys(): (r: seq<string>)
    ensures |r| == 30 && forall i :: 0 <= i < |r| ==> r[i] == "\n"
  {
    seq(30, i => "\n")
  }
}
