/** The C style check task (hbuild/checkers/sycek.py): which files of the
    source tree are checked, how the checker's output becomes a per-file
    result, and how the results are counted into the task's verdict.

    The directory walks and the checker's output for each file are inputs:
    `walkOf(top)` lists, in the order `os.walk` yields them, each directory
    under the top directory `top` (relative to the source root) with its
    file names, and `output` gives the lines the checker printed for a
    path. */
module Sycek {
  import opened Wrappers
  import opened Strings

  /** The directories the task walks, in order. */
  const TopDirs := ["abi", "kernel", "boot", "uspace"]

  /** The one ignored-files pattern, anchored at the start of the path. */
  const IgnoredPrefix := "uspace/lib/pcut/"

  /** `os.path.join(prefix, name)` for a file name without `/`. */
  function PathJoin(prefix: string, name: string): string {
    if prefix == [] || prefix[|prefix| - 1] == '/' then prefix + name else prefix + "/" + name
  }

  predicate IsCFile(name: string) {
    EndsWith(name, ".h") || EndsWith(name, ".c")
  }

  predicate Ignored(path: string) {
    StartsWith(path, IgnoredPrefix)
  }

  /** A directory as the walk yields it: its path and its file names. */
  datatype WalkEntry = WalkEntry(prefix: string, names: seq<string>)

  /** The paths of one directory that get checked, in listing order. */
  function CheckedIn(prefix: string, names: seq<string>): (r: seq<string>)
    ensures forall p :: p in r <==> exists n :: n in names && IsCFile(n) && p == PathJoin(prefix, n) && !Ignored(p)
    decreases |names|
  {
    if |names| == 0 then []
    else
      var n := names[0];
      var p := PathJoin(prefix, n);
      var rest := CheckedIn(prefix, names[1..]);
      assert forall m :: m in names <==> m == n || m in names[1..];
      if IsCFile(n) && !Ignored(p) then [p] + rest else rest
  }

  /** The paths the task checks, in walk order. */
  function CheckedFiles(walk: seq<WalkEntry>): (r: seq<string>)
    ensures forall p :: p in r <==> exists i, n :: 0 <= i < |walk| && n in walk[i].names && IsCFile(n)
                                                   && p == PathJoin(walk[i].prefix, n) && !Ignored(p)
    decreases |walk|
  {
    if |walk| == 0 then []
    else
      var rest := CheckedFiles(walk[1..]);
      assert forall i :: 1 <= i < |walk| ==> walk[i] == walk[1..][i - 1];
      var r := CheckedIn(walk[0].prefix, walk[0].names) + rest;
      forall p | p in rest
        ensures exists i, n :: 0 <= i < |walk| && n in walk[i].names && IsCFile(n)
                               && p == PathJoin(walk[i].prefix, n) && !Ignored(p)
      {
        var i, n :| 0 <= i < |walk[1..]| && n in walk[1..][i].names && IsCFile(n)
                    && p == PathJoin(walk[1..][i].prefix, n) && !Ignored(p);
        assert walk[i + 1] == walk[1..][i];
      }
      forall p | exists i, n :: 0 <= i < |walk| && n in walk[i].names && IsCFile(n)
                                && p == PathJoin(walk[i].prefix, n) && !Ignored(p)
        ensures p in r
      {
        var i, n :| 0 <= i < |walk| && n in walk[i].names && IsCFile(n)
                    && p == PathJoin(walk[i].prefix, n) && !Ignored(p);
        if i > 0 {
          assert walk[1..][i - 1] == walk[i];
        }
      }
      r
  }

  /** Nothing under the pcut library is checked, and only C sources and
      headers are. */
  lemma CheckedAreCSources(walk: seq<WalkEntry>, p: string)
    requires p in CheckedFiles(walk)
    ensures !StartsWith(p, "uspace/lib/pcut/")
    ensures exists i, n :: 0 <= i < |walk| && n in walk[i].names && p == PathJoin(walk[i].prefix, n)
                           && (EndsWith(n, ".c") || EndsWith(n, ".h"))
  {
  }

  // ---------------------------------------------------------------------------
  // SycekCheckTask.check_one_file

  /** The result for one file, from the lines the checker printed (its
      output also when it exits with an error), and the line logged. */
  function CheckOneFile(path: string, output: seq<string>): (r: (bool, nat, string))
    ensures r.0 <==> |output| == 0
    ensures r.0 ==> r.1 == 0 && r.2 == path + ": no error."
    ensures !r.0 ==> r.1 == |output| > 0 && r.2 == path + ": there were issues, see above."
  {
    if |output| == 0 then (true, 0, path + ": no error.")
    else (false, |output|, path + ": there were issues, see above.")
  }

  // ---------------------------------------------------------------------------
  // The counters of SycekCheckTask.run

  datatype Counters = Counters(total: nat, okay: nat, failures: nat, errors: nat, issues: nat, allOkay: bool)

  /** Counting one file's `(okay, issues_count)`. */
  function Count(c: Counters, okay: bool, issues: nat): Counters {
    var c' := c.(total := c.total + 1, allOkay := c.allOkay && okay);
    if okay then
      if issues == 0 then c'.(okay := c.okay + 1, issues := c.issues + issues)
      else c'.(failures := c.failures + 1, issues := c.issues + issues)
    else c'.(errors := c.errors + 1)
  }

  /** The loop over the checked files: every file is counted exactly once,
      as clean, with issues, or with errors; the verdict is that every file
      was okay. With `check_one_file` as written a file is never okay with
      issues, so the failure and issue counts stay 0. */
  method Tally(paths: seq<string>, output: string -> seq<string>) returns (c: Counters)
    ensures c.total == |paths| == c.okay + c.failures + c.errors
    ensures c.failures == 0 && c.issues == 0
    ensures c.allOkay <==> forall i :: 0 <= i < |paths| ==> output(paths[i]) == []
    ensures c.errors == |set i | 0 <= i < |paths| && output(paths[i]) != []|
  {
    c := Counters(0, 0, 0, 0, 0, true);
    var k := 0;
    while k < |paths|
      invariant k <= |paths|
      invariant c.total == k == c.okay + c.failures + c.errors
      invariant c.failures == 0 && c.issues == 0
      invariant c.allOkay <==> forall i :: 0 <= i < k ==> output(paths[i]) == []
      invariant c.errors == |set i | 0 <= i < k && output(paths[i]) != []|
    {
      var (okay, issues, _) := CheckOneFile(paths[k], output(paths[k]));
      c := Count(c, okay, issues);
      assert (set i | 0 <= i < k + 1 && output(paths[i]) != [])
             == (set i | 0 <= i < k && output(paths[i]) != []) + (if okay then {} else {k});
      k := k + 1;
    }
  }

  /** The counts are consistent whatever the per-file results are. */
  lemma {:induction false} CountKeepsTotal(c: Counters, results: seq<(bool, nat)>)
    requires c.total == c.okay + c.failures + c.errors
    ensures var c' := CountAll(c, results);
            c'.total == c.total + |results| == c'.okay + c'.failures + c'.errors
    decreases |results|
  {
    if |results| > 0 {
      CountKeepsTotal(Count(c, results[0].0, results[0].1), results[1..]);
    }
  }

  /** Counting a sequence of per-file results, as the loop does. */
  function CountAll(c: Counters, results: seq<(bool, nat)>): Counters
    decreases |results|
  {
    if |results| == 0 then c else CountAll(Count(c, results[0].0, results[0].1), results[1..])
  }

  /** The walks of the top directories, one after another. */
  function WalkAll(tops: seq<string>, walkOf: string -> seq<WalkEntry>): (r: seq<WalkEntry>)
    ensures forall e :: e in r <==> exists i :: 0 <= i < |tops| && e in walkOf(tops[i])
    decreases |tops|
  {
    if |tops| == 0 then []
    else
      var rest := WalkAll(tops[1..], walkOf);
      assert forall i :: 1 <= i < |tops| ==> tops[i] == tops[1..][i - 1];
      forall e | e in rest ensures exists i :: 0 <= i < |tops| && e in walkOf(tops[i]) {
        var i :| 0 <= i < |tops[1..]| && e in walkOf(tops[1..][i]);
        assert tops[i + 1] == tops[1..][i];
      }
      walkOf(tops[0]) + rest
  }

  /** The verdict of `run`: true when every checked file under the four top
      directories was clean, otherwise the task fails. */
  method Run(walkOf: string -> seq<WalkEntry>, output: string -> seq<string>) returns (r: Result<bool>, c: Counters)
    ensures var checked := CheckedFiles(WalkAll(TopDirs, walkOf));
            && (r.Ok? <==> forall p :: p in checked ==> output(p) == [])
            && c.total == |checked|
    ensures r.Ok? ==> r.value
    ensures r.Err? ==> r.msg == "Some files has C style issues."
  {
    var paths := CheckedFiles(WalkAll(TopDirs, walkOf));
    c := Tally(paths, output);
    if c.allOkay {
      r := Ok(true);
    } else {
      r := Err("Some files has C style issues.");
    }
  }
}
