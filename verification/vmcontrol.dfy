/** The machine registry and the terminal history of a virtual machine
    (htest/vm/controller.py).

    `VMManager` keeps the created machines by name and remembers the last
    one used. `VMController.capture_vterm` keeps two lists of terminal
    lines: `full_vterm`, everything seen so far, and `vterm`, the lines
    that appeared since the scenario tasks last emptied it. Each capture of
    the screen is aligned with the end of the history and only what is new
    is appended. The screen contents (`capture_vterm_impl`) are an input. */
module VmControl {
  import opened Wrappers
  import opened Strings
  import ScrollTerm

  // ---------------------------------------------------------------------------
  // VMManager

  /** What `controller_class(architecture, name, boot_image)` is built from. */
  datatype Machine = Machine(arch: string, name: string, bootImage: string)

  datatype Manager = Manager(arch: string, bootImage: string, instances: map<string, Machine>, last: Option<string>)

  function NewManager(arch: string, bootImage: string): Manager {
    Manager(arch, bootImage, map[], None)
  }

  /** `last`, when set, names a registered machine. */
  ghost predicate ManagerWf(m: Manager) {
    m.last.Some? ==> m.last.value in m.instances
  }

  /** `VMManager.create`. */
  function Create(m: Manager, name: string): (r: Result<(Manager, Machine)>)
    ensures r.Err? <==> name in m.instances
    ensures r.Err? ==> r.msg == "Duplicate machine name " + name + "."
    ensures r.Ok? ==> var (m', vm) := r.value;
                      m'.instances == m.instances[name := vm] && m'.last == Some(name)
                      && vm.name == name && vm.arch == m.arch && vm.bootImage == m.bootImage
                      && m'.arch == m.arch && m'.bootImage == m.bootImage
  {
    if name in m.instances then Err("Duplicate machine name " + name + ".")
    else
      var vm := Machine(m.arch, name, m.bootImage);
      Ok((m.(instances := m.instances[name := vm], last := Some(name)), vm))
  }

  /** `VMManager.get`: `None` asks for the last machine used. */
  function Get(m: Manager, name: Option<string>): (r: (Option<Machine>, Manager))
    ensures r.1.instances == m.instances && r.1.arch == m.arch && r.1.bootImage == m.bootImage
    ensures var n := if name.Some? then name else m.last;
            && (r.0.Some? <==> n.Some? && n.value in m.instances)
            && (r.0.Some? ==> r.0.value == m.instances[n.value] && r.1.last == n)
            && (r.0.None? ==> r.1 == m)
  {
    var n := if name.Some? then name else m.last;
    if n.None? then (None, m)
    else if n.value in m.instances then (Some(m.instances[n.value]), m.(last := n))
    else (None, m)
  }

  lemma CreateKeepsWf(m: Manager, name: string)
    requires ManagerWf(m)
    ensures Create(m, name).Ok? ==> ManagerWf(Create(m, name).value.0)
  {
  }

  lemma GetKeepsWf(m: Manager, name: Option<string>)
    requires ManagerWf(m)
    ensures ManagerWf(Get(m, name).1)
  {
  }

  /** After creating a machine, asking for the last one, or for it by name,
      gives it back; asking for an unknown name changes nothing. */
  lemma CreateThenGet(m: Manager, name: string, other: string)
    requires Create(m, name).Ok? && other != name && other !in m.instances
    ensures var (m', vm) := Create(m, name).value;
            Get(m', None) == (Some(vm), m')
            && Get(m', Some(name)) == (Some(vm), m')
            && Get(m', Some(other)) == (None, m')
  {
  }

  // ---------------------------------------------------------------------------
  // VMController.same_vterm_tail

  /** The history line written to mark that lines may have been missed. */
  const MissedLinesMarker := "!!!!!! WARNING: probably missed some lines here !!!!!"

  /** How the last lines are compared: cursor underscores become spaces and
      the result is stripped. */
  function LastLineKey(l: string): string {
    Strip(ReplaceChar(l, '_', ' '))
  }

  /** The `k`-th line from the end of `lines` agrees with the `k`-th line
      from the end of `full`: the last one as a prefix of its key, the
      others exactly. */
  predicate AgreesFromEnd(full: seq<string>, lines: seq<string>, k: nat)
    requires 1 <= k <= |lines| && k <= |full|
  {
    if k == 1 then StartsWith(LastLineKey(lines[|lines| - 1]), LastLineKey(full[|full| - 1]))
    else lines[|lines| - k] == full[|full| - k]
  }

  /** The last `m` lines agree. */
  predicate TailAgrees(full: seq<string>, lines: seq<string>, m: nat)
    requires m <= |lines| && m <= |full|
    decreases m
  {
    m == 0 || (TailAgrees(full, lines, m - 1) && AgreesFromEnd(full, lines, m))
  }

  /** The loop of `same_vterm_tail` from the `k`-th line from the end on.
      Indexing `full_vterm` past its start raises `IndexError`. */
  function TailFrom(full: seq<string>, lines: seq<string>, k: nat): (r: Result<bool>)
    requires 1 <= k <= |lines| + 1 && k - 1 <= |full| && TailAgrees(full, lines, k - 1)
    ensures r == Ok(true) <==> |lines| <= |full| && TailAgrees(full, lines, |lines|)
    ensures r.Err? <==> |lines| > |full| && TailAgrees(full, lines, |full|)
    decreases |lines| + 1 - k
  {
    if k > |lines| then Ok(true)
    else if k > |full| then Err("IndexError: list index out of range")
    else if !AgreesFromEnd(full, lines, k) then
      TailAgreesShorter(full, lines, k, if |lines| <= |full| then |lines| else |full|);
      Ok(false)
    else TailFrom(full, lines, k + 1)
  }

  /** Agreement of the last `m` lines includes agreement of fewer. */
  lemma {:induction false} TailAgreesShorter(full: seq<string>, lines: seq<string>, j: nat, m: nat)
    requires j <= m <= |lines| && m <= |full|
    ensures TailAgrees(full, lines, m) ==> TailAgrees(full, lines, j)
    decreases m
  {
    if j < m {
      TailAgreesShorter(full, lines, j, m - 1);
    }
  }

  /** `same_vterm_tail(lines)` against the history `full`. */
  function SameVtermTail(full: seq<string>, lines: seq<string>): (r: Result<bool>)
    ensures r == Ok(true) <==> |lines| <= |full| && TailAgrees(full, lines, |lines|)
    ensures r.Err? <==> |lines| > |full| && TailAgrees(full, lines, |full|)
  {
    TailFrom(full, lines, 1)
  }

  /** The comparison as evidently intended: a screen head longer than the
      history cannot be its tail. */
  function SameVtermTailFixed(full: seq<string>, lines: seq<string>): (r: bool)
    ensures r <==> |lines| <= |full| && TailAgrees(full, lines, |lines|)
  {
    match SameVtermTail(full, lines)
    case Ok(b) => b
    case Err(_) => false
  }

  /** Where the comparison as written does not raise, it agrees with the
      intended one. */
  lemma SameVtermTailAgrees(full: seq<string>, lines: seq<string>)
    ensures SameVtermTail(full, lines).Ok? ==> SameVtermTail(full, lines).value == SameVtermTailFixed(full, lines)
  {
  }

  // ---------------------------------------------------------------------------
  // VMController.capture_vterm

  datatype Vterm = Vterm(full: seq<string>, vterm: seq<string>)

  /** Whether each head `lines[0:j]` is the tail of the history, for
      `j` from 0 to `|lines|`, with the comparison as written
      (`fixed == false`) or as intended. */
  function HeadTests(full: seq<string>, lines: seq<string>, fixed: bool): (t: seq<Result<bool>>)
    ensures |t| == |lines| + 1
    ensures forall j :: 0 <= j <= |lines| ==>
              t[j] == if fixed then Ok(SameVtermTailFixed(full, lines[..j])) else SameVtermTail(full, lines[..j])
  {
    seq(|lines| + 1, j requires 0 <= j <= |lines| =>
      if fixed then Ok(SameVtermTailFixed(full, lines[..j])) else SameVtermTail(full, lines[..j]))
  }

  /** `for i in range(i, 0, -1)` over the head tests: the longest head
      that matched, 0 if none did; an exception ends the loop. */
  function ScanDown(tests: seq<Result<bool>>, i: nat): (r: Result<nat>)
    requires i < |tests|
    ensures r.Ok? ==> r.value <= i && (r.value > 0 ==> tests[r.value] == Ok(true))
                      && forall j :: r.value < j <= i ==> tests[j] == Ok(false)
    ensures r.Err? ==> exists j :: 1 <= j <= i && tests[j].Err?
    decreases i
  {
    if i == 0 then Ok(0)
    else
      match tests[i]
      case Err(e) => Err(e)
      case Ok(true) => Ok(i)
      case Ok(false) => ScanDown(tests, i - 1)
  }

  /** The screen as `capture_vterm` reads it: every line stripped, trailing
      empty lines dropped. */
  function ScreenLines(raw: seq<string>): (r: seq<string>)
    ensures |r| <= |raw|
    ensures forall i :: 0 <= i < |r| ==> r[i] == Strip(raw[i])
    ensures EndsNonEmpty(r)
  {
    var r := ScrollTerm.ClearEmptyTail(StripAll(raw));
    ScreenLinesShape(raw, r);
    r
  }

  /** The lines `ScreenLines` drops are exactly a tail of lines that strip
      to nothing: together with its contract, a line is dropped only when it
      and every line below it are empty. */
  lemma ScreenLinesDropsEmptyTail(raw: seq<string>)
    ensures EmptyFrom(raw, |ScreenLines(raw)|)
  {
    ScreenLinesShape(raw, ScreenLines(raw));
  }

  /** Every line of `raw` from `n` on strips to the empty line. */
  predicate EmptyFrom(raw: seq<string>, n: nat) {
    forall i :: n <= i < |raw| ==> Strip(raw[i]) == ""
  }

  /** The last line, if any, is not empty. */
  predicate EndsNonEmpty(lines: seq<string>) {
    |lines| == 0 || lines[|lines| - 1] != ""
  }

  /** The facts `ScreenLines` promises, proved apart from its body. */
  lemma ScreenLinesShape(raw: seq<string>, r: seq<string>)
    requires r == ScrollTerm.ClearEmptyTail(StripAll(raw))
    ensures |r| <= |raw|
    ensures forall i :: 0 <= i < |r| ==> r[i] == Strip(raw[i])
    ensures EmptyFrom(raw, |r|) && EndsNonEmpty(r)
  {
    var stripped := StripAll(raw);
    forall i | 0 <= i < |r| ensures r[i] == Strip(raw[i]) {
      assert r[i] == stripped[i];
    }
    forall i | |r| <= i < |raw| ensures Strip(raw[i]) == "" {
      BlankStrippedIsEmpty(raw[i], stripped[i]);
    }
    if |r| > 0 {
      assert IsBlank("");
    }
  }

  /** A stripped line that is blank is the empty line. */
  lemma BlankStrippedIsEmpty(s: string, t: string)
    requires t == Strip(s) && IsBlank(t)
    ensures t == ""
  {
    StripEnds(s);
  }

  /** `[l.strip() for l in lines]`. */
  function StripAll(raw: seq<string>): (r: seq<string>)
    ensures |r| == |raw| && forall i :: 0 <= i < |raw| ==> r[i] == Strip(raw[i])
  {
    seq(|raw|, i requires 0 <= i < |raw| => Strip(raw[i]))
  }

  /** Python's `xs[0:-1]`. */
  function DropLastLine(xs: seq<string>): (r: seq<string>)
    ensures |xs| > 0 ==> r == xs[..|xs| - 1]
    ensures |xs| == 0 ==> r == []
  {
    if |xs| > 0 then xs[..|xs| - 1] else []
  }

  /** Appending a non-blank screen to a non-empty history, once the longest
      matching head `lines[0:same]` is known. */
  function Append(st: Vterm, lines: seq<string>, same: nat): (r: Vterm)
    requires st.full != [] && 0 < |lines| && same <= |lines|
    ensures Continues(st, lines, r)
  {
    if same == 0 then Vterm(st.full + [MissedLinesMarker] + lines, st.vterm + lines)
    else
      var r := Vterm(DropLastLine(st.full) + lines[same - 1..], DropLastLine(st.vterm) + lines[same - 1..]);
      assert 0 <= same - 1 < |lines|
             && r == Vterm(st.full[..|st.full| - 1] + lines[same - 1..], DropLastLine(st.vterm) + lines[same - 1..]);
      r
  }

  /** `capture_vterm`, with the comparison as written or as intended. */
  function Update(st: Vterm, raw: seq<string>, fixed: bool): (r: Result<Vterm>)
    ensures fixed ==> r.Ok?
    ensures r.Ok? ==> Continues(st, ScreenLines(raw), r.value)
  {
    var lines := ScreenLines(raw);
    if |lines| == 0 then Ok(st)
    else if |st.full| == 0 then Ok(Vterm(lines, st.vterm + lines))
    else
      match ScanDown(HeadTests(st.full, lines, fixed), |lines|)
      case Err(e) => Err(e)
      case Ok(same) => Ok(Append(st, lines, same))
  }

  /** `capture_vterm` as written. When it does not raise it does what the
      intended capture does (the longest matching head, or the marker when no
      head matched). */
  function CaptureVterm(st: Vterm, raw: seq<string>): (r: Result<Vterm>)
    ensures r.Ok? ==> Continues(st, ScreenLines(raw), r.value)
    ensures r.Ok? ==> r.value == CaptureVtermFixed(st, raw)
  {
    UpdateAgrees(st, raw);
    Update(st, raw, false)
  }

  /** Where the capture as written returns, it returns what the intended
      capture returns. */
  lemma UpdateAgrees(st: Vterm, raw: seq<string>)
    ensures Update(st, raw, false).Ok? ==> Update(st, raw, false) == Update(st, raw, true)
  {
    var lines := ScreenLines(raw);
    if |lines| > 0 && |st.full| > 0 {
      var tw := HeadTests(st.full, lines, false);
      var tf := HeadTests(st.full, lines, true);
      forall j | 1 <= j <= |lines| && tw[j].Ok? ensures tf[j] == tw[j] {
        SameVtermTailAgrees(st.full, lines[..j]);
      }
      ScanDownAgrees(tw, tf, |lines|);
    }
  }

  /** A scan over tests that agree wherever the first ones do not raise finds
      the same head, unless the first scan raises. */
  lemma {:induction false} ScanDownAgrees(tw: seq<Result<bool>>, tf: seq<Result<bool>>, i: nat)
    requires i < |tw| == |tf|
    requires forall j :: 1 <= j <= i && tw[j].Ok? ==> tf[j] == tw[j]
    ensures ScanDown(tw, i).Ok? ==> ScanDown(tf, i) == ScanDown(tw, i)
    decreases i
  {
    if i > 0 && tw[i] == Ok(false) {
      ScanDownAgrees(tw, tf, i - 1);
    }
  }

  /** `capture_vterm` with a screen head longer than the history taken as
      no match. */
  function CaptureVtermFixed(st: Vterm, raw: seq<string>): (r: Vterm)
    ensures Continues(st, ScreenLines(raw), r)
  {
    Update(st, raw, true).value
  }

  /** What a capture of the screen `lines` does to the history: nothing for
      a blank screen; otherwise only the last history line may be replaced,
      and what follows is the screen from some line on, after a marker when
      no head of the screen matched. The new lines go to `vterm` as well. */
  ghost predicate Continues(st: Vterm, lines: seq<string>, st': Vterm) {
    if lines == [] then st' == st
    else if st.full == [] then st' == Vterm(lines, st.vterm + lines)
    else
      (st' == Vterm(st.full + [MissedLinesMarker] + lines, st.vterm + lines))
      || exists i :: 0 <= i < |lines|
                     && st' == Vterm(st.full[..|st.full| - 1] + lines[i..], DropLastLine(st.vterm) + lines[i..])
  }

  /** Earlier history lines are never altered: all but the last line of the
      history stay a prefix of it. */
  lemma HistoryKept(st: Vterm, lines: seq<string>, st': Vterm)
    requires Continues(st, lines, st')
    ensures |st.full| > 0 ==> |st.full| - 1 <= |st'.full| && st'.full[..|st.full| - 1] == st.full[..|st.full| - 1]
  {
    if lines != [] && |st.full| > 0 {
      var n := |st.full| - 1;
      if st' != Vterm(st.full + [MissedLinesMarker] + lines, st.vterm + lines) {
        var i :| 0 <= i < |lines| && st' == Vterm(st.full[..n] + lines[i..], DropLastLine(st.vterm) + lines[i..]);
        assert st'.full[..n] == st.full[..n];
      } else {
        assert st'.full[..n] == st.full[..n];
      }
    }
  }

  /** With the longest matching head `lines[0:k]`, the last history line is
      replaced by `lines[k-1:]`. */
  lemma CaptureLongestHead(st: Vterm, raw: seq<string>, lines: seq<string>, k: nat)
    requires st.full != [] && ScreenLines(raw) == lines && 1 <= k <= |lines|
    requires SameVtermTailFixed(st.full, lines[..k])
    requires forall j :: k < j <= |lines| ==> !SameVtermTailFixed(st.full, lines[..j])
    ensures CaptureVtermFixed(st, raw)
              == Vterm(st.full[..|st.full| - 1] + lines[k - 1..], DropLastLine(st.vterm) + lines[k - 1..])
  {
    var t := HeadTests(st.full, lines, true);
    assert t[k] == Ok(true);
    forall j | k < j <= |lines| ensures t[j] == Ok(false) {
      assert !SameVtermTailFixed(st.full, lines[..j]);
    }
    ScanDownFinds(t, |lines|, k);
    UpdateAppends(st, raw, true, k);
    AppendFrom(st, lines, k);
  }

  lemma AppendFrom(st: Vterm, lines: seq<string>, same: nat)
    requires st.full != [] && 0 < same <= |lines|
    ensures Append(st, lines, same)
              == Vterm(st.full[..|st.full| - 1] + lines[same - 1..], DropLastLine(st.vterm) + lines[same - 1..])
  {
  }

  /** With no matching head, the marker and then the whole screen are
      appended. */
  lemma CaptureNoOverlap(st: Vterm, raw: seq<string>)
    requires st.full != [] && ScreenLines(raw) != []
    requires forall j :: 1 <= j <= |ScreenLines(raw)| ==> !SameVtermTailFixed(st.full, ScreenLines(raw)[..j])
    ensures CaptureVtermFixed(st, raw)
              == Vterm(st.full + [MissedLinesMarker] + ScreenLines(raw), st.vterm + ScreenLines(raw))
  {
    var lines := ScreenLines(raw);
    var s := ScanDown(HeadTests(st.full, lines, true), |lines|);
    assert s.value == 0;
    UpdateAppends(st, raw, true, 0);
  }

  /** The scan stops at the first head, from the longest, that matches. */
  lemma {:induction false} ScanDownFinds(tests: seq<Result<bool>>, i: nat, k: nat)
    requires 1 <= k <= i < |tests| && tests[k] == Ok(true)
    requires forall j :: k < j <= i ==> tests[j] == Ok(false)
    ensures ScanDown(tests, i) == Ok(k)
    decreases i
  {
    if i > k {
      ScanDownFinds(tests, i - 1, k);
    }
  }

  /** A capture of a non-blank screen onto a non-empty history appends
      from where the scan stopped. */
  lemma UpdateAppends(st: Vterm, raw: seq<string>, fixed: bool, same: nat)
    requires st.full != [] && ScreenLines(raw) != []
    requires ScanDown(HeadTests(st.full, ScreenLines(raw), fixed), |ScreenLines(raw)|) == Ok(same)
    ensures same <= |ScreenLines(raw)|
    ensures Update(st, raw, fixed) == Ok(Append(st, ScreenLines(raw), same))
  {
  }

  /** A scan that meets an exception makes the capture raise. */
  lemma UpdateRaises(st: Vterm, raw: seq<string>, lines: seq<string>)
    requires st.full != [] && ScreenLines(raw) == lines && lines != []
    requires SameVtermTail(st.full, lines).Err?
    ensures Update(st, raw, false).Err?
  {
    var t := HeadTests(st.full, lines, false);
    assert lines[..|lines|] == lines;
    assert t[|lines|].Err?;
  }

  // ---------------------------------------------------------------------------
  // An input that shows the `IndexError`

  /** After a first screen showing only the prompt, a screen whose last
      line is the prompt again makes `same_vterm_tail` index past the start
      of the one-line history. */
  lemma CaptureAsWrittenRaises()
    ensures CaptureVterm(Vterm(["#"], ["#"]), ["# ls", "a.txt", "#"]).Err?
  {
    var lines := ["# ls", "a.txt", "#"];
    ScreenOf(lines);
    PromptTailRaises();
    UpdateRaises(Vterm(["#"], ["#"]), lines, lines);
  }

  /** The screen is longer than the history `#` and ends in `#`. */
  lemma PromptTailRaises()
    ensures SameVtermTail(["#"], ["# ls", "a.txt", "#"]).Err?
  {
    KeyOfWord("#");
    assert AgreesFromEnd(["#"], ["# ls", "a.txt", "#"], 1);
  }

  /** The same input with the comparison as intended: the prompt line of
      the history is completed by the typed command and the rest follows. */
  lemma CaptureFixedExtendsPrompt()
    ensures CaptureVtermFixed(Vterm(["#"], ["#"]), ["# ls", "a.txt", "#"])
            == Vterm(["# ls", "a.txt", "#"], ["# ls", "a.txt", "#"])
  {
    var lines := ["# ls", "a.txt", "#"];
    ScreenOf(lines);
    PromptHeads();
    ReplacesPrompt(Vterm(["#"], ["#"]), lines, lines);
  }

  /** A screen whose first line alone continues a one-line history
      replaces that line and everything follows it. */
  lemma ReplacesPrompt(st: Vterm, raw: seq<string>, lines: seq<string>)
    requires |st.full| == 1 && |st.vterm| == 1 && ScreenLines(raw) == lines && |lines| >= 1
    requires SameVtermTailFixed(st.full, lines[..1])
    requires forall j :: 1 < j <= |lines| ==> !SameVtermTailFixed(st.full, lines[..j])
    ensures CaptureVtermFixed(st, raw) == Vterm(lines, lines)
  {
    CaptureLongestHead(st, raw, lines, 1);
    ReplaceWholeHistory(st, lines);
  }

  lemma ReplaceWholeHistory(st: Vterm, lines: seq<string>)
    requires |st.full| == 1 && |st.vterm| == 1
    ensures Vterm(st.full[..|st.full| - 1] + lines[0..], DropLastLine(st.vterm) + lines[0..]) == Vterm(lines, lines)
  {
    assert lines[0..] == lines;
  }

  /** Only the first screen line, `# ls`, continues the history `#`. */
  lemma PromptHeads()
    ensures var lines := ["# ls", "a.txt", "#"];
            && SameVtermTailFixed(["#"], lines[..1])
            && (forall j :: 1 < j <= |lines| ==> !SameVtermTailFixed(["#"], lines[..j]))
  {
    var lines := ["# ls", "a.txt", "#"];
    KeyOfWord("# ls");
    KeyOfWord("#");
    assert lines[..1] == ["# ls"];
    assert StartsWith("# ls", "#");
    assert AgreesFromEnd(["#"], lines[..1], 1);
  }

  /** A line without underscores or surrounding whitespace is its own key. */
  lemma KeyOfWord(s: string)
    requires |s| > 0 && !IsSpace(s[0]) && !IsSpace(s[|s| - 1])
    requires forall i :: 0 <= i < |s| ==> s[i] != '_'
    ensures LastLineKey(s) == s
  {
    assert ReplaceChar(s, '_', ' ') == s;
    StripWord(s);
  }

  /** A string with no whitespace at either end strips to itself. */
  lemma StripWord(s: string)
    requires |s| > 0 && !IsSpace(s[0]) && !IsSpace(s[|s| - 1])
    ensures Strip(s) == s
  {
  }

  lemma ScreenOf(lines: seq<string>)
    requires |lines| > 0 && forall i :: 0 <= i < |lines| ==> |lines[i]| > 0 && !IsSpace(lines[i][0]) && !IsSpace(lines[i][|lines[i]| - 1])
    ensures ScreenLines(lines) == lines
  {
    var stripped := seq(|lines|, i requires 0 <= i < |lines| => Strip(lines[i]));
    forall i | 0 <= i < |lines| ensures stripped[i] == lines[i] {
      StripWord(lines[i]);
    }
    assert stripped == lines;
    assert !IsBlank(lines[|lines| - 1]) by {
      assert !IsSpace(lines[|lines| - 1][0]);
    }
  }
}
