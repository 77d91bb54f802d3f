/** Keeping track of text scrolling away in a terminal (htest/scrollterm.py):
    each capture of the screen is compared with the previous one, and only
    the lines that newly appeared are returned.

    The capture callback is an input: `raw` is the list of lines it returns.
    The cursor symbol (`_` in the tests) marks where the terminal's cursor
    sits at the end of a line that is still being typed. */
module ScrollTerm {
  import opened Wrappers
  import opened Strings

  /** `capture`: every captured line right-stripped. */
  function Capture(raw: seq<string>): (r: seq<string>)
    ensures |r| == |raw|
    ensures forall i :: 0 <= i < |raw| ==>
              StartsWith(raw[i], r[i]) && IsBlank(raw[i][|r[i]|..])
              && (|r[i]| == 0 || !IsSpace(r[i][|r[i]| - 1]))
  {
    seq(|raw|, i requires 0 <= i < |raw| => RStrip(raw[i]))
  }

  /** `_clear_empty_tail`: drops the trailing lines that are blank. */
  function ClearEmptyTail(lines: seq<string>): (r: seq<string>)
    ensures |r| <= |lines| && r == lines[..|r|]
    ensures forall i :: |r| <= i < |lines| ==> IsBlank(lines[i])
    ensures |r| == 0 || !IsBlank(r[|r| - 1])
    decreases |lines|
  {
    if |lines| > 0 && Strip(lines[|lines| - 1]) == [] then
      var r := ClearEmptyTail(lines[..|lines| - 1]);
      assert lines[..|lines| - 1][..|r|] == lines[..|r|];
      r
    else
      lines
  }

  /** Clearing twice clears nothing more. */
  lemma ClearEmptyTailIdempotent(lines: seq<string>)
    ensures ClearEmptyTail(ClearEmptyTail(lines)) == ClearEmptyTail(lines)
  {
    var r := ClearEmptyTail(lines);
    if |r| > 0 {
      assert Strip(r[|r| - 1]) != [];
    }
  }

  /** Python's `s[0:-n]`: for `n == 0` this is the empty string, not `s`. */
  function DropLast(s: string, n: nat): (r: string)
    requires n <= |s|
    ensures n > 0 ==> r == s[..|s| - n]
    ensures n == 0 ==> r == []
  {
    if n == 0 then [] else s[..|s| - n]
  }

  /** `_same_lines(prev, curr)`: whether `curr` shows the same lines as
      `prev`, and whether the last line of `prev` ended with the cursor. A
      cursor-ended last line only needs to be a prefix of the new last line
      once the cursor is dropped. */
  function SameLines(prev: seq<string>, curr: seq<string>, cursor: string): (r: (bool, bool))
    requires |prev| == |curr| > 0
    ensures r.1 <==> prev[..|prev| - 1] == curr[..|curr| - 1] && EndsWith(prev[|prev| - 1], cursor)
    ensures r.0 <==> prev[..|prev| - 1] == curr[..|curr| - 1]
                     && if EndsWith(prev[|prev| - 1], cursor)
                        then StartsWith(curr[|prev| - 1], DropLast(prev[|prev| - 1], |cursor|))
                        else prev[|prev| - 1] == curr[|prev| - 1]
  {
    var n := |prev|;
    if prev[..n - 1] != curr[..n - 1] then
      (false, false)
    else
      var last := prev[n - 1];
      if EndsWith(last, cursor) then
        (StartsWith(curr[n - 1], DropLast(last, |cursor|)), true)
      else
        (last == curr[n - 1], false)
  }

  /** A screen is the same as itself. */
  lemma SameLinesRefl(xs: seq<string>, cursor: string)
    requires |xs| > 0
    ensures SameLines(xs, xs, cursor).0
  {
    var last := xs[|xs| - 1];
    if EndsWith(last, cursor) && |cursor| > 0 {
      assert last[..|DropLast(last, |cursor|)|] == DropLast(last, |cursor|);
    }
  }

  /** The largest overlap `k` is where the last `k` lines of the previous screen
      are the same as the first `k` lines of the new one. */
  predicate Matches(before: seq<string>, now: seq<string>, k: nat, cursor: string) {
    1 <= k <= |now| && k <= |before| && SameLines(before[|before| - k..], now[..k], cursor).0
  }

  /** The loop `for same_lines_it in range(it, 0, -1)` of `get_lines_once`,
      stopping at the first match. */
  function ScanOverlap(before: seq<string>, now: seq<string>, it: nat, cursor: string): (r: Option<nat>)
    requires it <= |now|
    ensures r.Some? ==> r.value <= it && Matches(before, now, r.value, cursor)
                        && forall k :: r.value < k <= it ==> !Matches(before, now, k, cursor)
    ensures r.None? ==> forall k :: 1 <= k <= it ==> !Matches(before, now, k, cursor)
    decreases it
  {
    if it == 0 then None
    else if Matches(before, now, it, cursor) then Some(it)
    else ScanOverlap(before, now, it - 1, cursor)
  }

  /** `same_lines_len`: how many leading lines of the new screen were seen
      already; one fewer when the matched last line carried the cursor, so
      that the completed line is returned again. */
  function SeenLines(before: seq<string>, now: seq<string>, cursor: string): (n: nat)
    ensures n <= |now|
  {
    match ScanOverlap(before, now, |now|, cursor)
    case None => 0
    case Some(k) => if SameLines(before[|before| - k..], now[..k], cursor).1 then k - 1 else k
  }

  /** The terminal tracker: the cursor symbol and the last screen stored. */
  datatype Terminal = Terminal(cursor: string, lastScreen: Option<seq<string>>)

  function Init(cursor: string): Terminal {
    Terminal(cursor, None)
  }

  /** `get_lines_once` once the screen is captured and cleaned: what is
      returned is always the end of the new screen, which is stored. */
  function Track(t: Terminal, now: seq<string>): (r: (seq<string>, Terminal))
    ensures r.1.cursor == t.cursor
    ensures now == [] ==> r == ([], t)
    ensures now != [] ==> r.1.lastScreen == Some(now) && |r.0| <= |now| && r.0 == now[|now| - |r.0|..]
    ensures now != [] && t.lastScreen.None? ==> r.0 == now
  {
    if |now| == 0 then ([], t)
    else
      match t.lastScreen
      case None => (now, t.(lastScreen := Some(now)))
      case Some(before) =>
        var n := SeenLines(before, now, t.cursor);
        assert |now| - |now[n..]| == n;
        (now[n..], t.(lastScreen := Some(now)))
  }

  /** `get_lines_once`, given what the capture callback returns. */
  function GetLinesOnce(t: Terminal, raw: seq<string>): (r: (seq<string>, Terminal))
    ensures r.1.cursor == t.cursor
    ensures var now := ClearEmptyTail(Capture(raw));
            && (now == [] ==> r == ([], t))
            && (now != [] ==> r.1.lastScreen == Some(now) && |r.0| <= |now| && r.0 == now[|now| - |r.0|..])
            && (now != [] && t.lastScreen.None? ==> r.0 == now)
  {
    Track(t, ClearEmptyTail(Capture(raw)))
  }

  /** With the largest overlap at `k`, the first `k` lines of the new screen
      count as seen, except a matched last line that carried the cursor. */
  lemma SeenLinesLargest(before: seq<string>, now: seq<string>, cursor: string, k: nat)
    requires Matches(before, now, k, cursor)
    requires forall j :: k < j <= |now| ==> !Matches(before, now, j, cursor)
    ensures SeenLines(before, now, cursor) == if SameLines(before[|before| - k..], now[..k], cursor).1 then k - 1 else k
  {
    ScanFindsLargest(before, now, |now|, cursor, k);
  }

  /** The scan from `it` down stops at the largest match not above `it`. */
  lemma {:induction false} ScanFindsLargest(before: seq<string>, now: seq<string>, it: nat, cursor: string, k: nat)
    requires k <= it <= |now| && Matches(before, now, k, cursor)
    requires forall j :: k < j <= it ==> !Matches(before, now, j, cursor)
    ensures ScanOverlap(before, now, it, cursor) == Some(k)
    decreases it
  {
    if it > k {
      assert !Matches(before, now, it, cursor);
      ScanFindsLargest(before, now, it - 1, cursor, k);
    }
  }

  /** Without any overlap no line of the new screen counts as seen. */
  lemma SeenLinesNone(before: seq<string>, now: seq<string>, cursor: string)
    requires forall j :: 1 <= j <= |now| ==> !Matches(before, now, j, cursor)
    ensures SeenLines(before, now, cursor) == 0
  {
  }

  /** A tracker that has seen a screen returns the lines of the new screen
      after the ones counted as seen. */
  lemma TrackSeen(before: seq<string>, cursor: string, now: seq<string>, n: nat)
    requires now != [] && SeenLines(before, now, cursor) == n
    ensures n <= |now|
    ensures Track(Terminal(cursor, Some(before)), now) == (now[n..], Terminal(cursor, Some(now)))
  {
  }

  /** `get_lines_once` is the tracking step on the cleaned capture. */
  lemma FromCapture(t: Terminal, raw: seq<string>, now: seq<string>)
    requires ClearEmptyTail(Capture(raw)) == now
    ensures GetLinesOnce(t, raw) == Track(t, now)
  {
  }

  /** With the largest overlap at `k`, the lines after it are returned, and
      the matched last line as well when it carried the cursor. */
  lemma GetLinesOnceLargestOverlap(t: Terminal, raw: seq<string>, now: seq<string>, k: nat)
    requires now == ClearEmptyTail(Capture(raw)) && t.lastScreen.Some?
    requires Matches(t.lastScreen.value, now, k, t.cursor)
    requires forall j :: k < j <= |now| ==> !Matches(t.lastScreen.value, now, j, t.cursor)
    ensures var before := t.lastScreen.value;
            GetLinesOnce(t, raw).0
              == if SameLines(before[|before| - k..], now[..k], t.cursor).1 then now[k - 1..] else now[k..]
  {
    FromCapture(t, raw, now);
    var before := t.lastScreen.value;
    SeenLinesLargest(before, now, t.cursor, k);
    TrackSeen(before, t.cursor, now, SeenLines(before, now, t.cursor));
  }

  /** Without any overlap the whole screen is returned. */
  lemma GetLinesOnceNoOverlap(t: Terminal, raw: seq<string>, now: seq<string>)
    requires now == ClearEmptyTail(Capture(raw)) && t.lastScreen.Some?
    requires forall j :: 1 <= j <= |now| ==> !Matches(t.lastScreen.value, now, j, t.cursor)
    ensures GetLinesOnce(t, raw).0 == now
  {
    FromCapture(t, raw, now);
    SeenLinesNone(t.lastScreen.value, now, t.cursor);
    if now != [] {
      TrackSeen(t.lastScreen.value, t.cursor, now, 0);
    }
  }

  /** An unchanged screen whose last line does not end with the cursor
      yields no new lines. */
  lemma SameScreenYieldsNothing(t: Terminal, raw: seq<string>)
    requires t.lastScreen == Some(ClearEmptyTail(Capture(raw)))
    requires var now := ClearEmptyTail(Capture(raw));
             now != [] && !EndsWith(now[|now| - 1], t.cursor)
    ensures GetLinesOnce(t, raw) == ([], t)
  {
    var now := ClearEmptyTail(Capture(raw));
    FromCapture(t, raw, now);
    SameTrackYieldsNothing(t.cursor, now);
  }

  lemma SameTrackYieldsNothing(cursor: string, now: seq<string>)
    requires now != [] && !EndsWith(now[|now| - 1], cursor)
    ensures Track(Terminal(cursor, Some(now)), now) == ([], Terminal(cursor, Some(now)))
  {
    SameLinesRefl(now, cursor);
    assert now[|now| - |now|..] == now && now[..|now|] == now;
    SeenLinesLargest(now, now, cursor, |now|);
    TrackSeen(now, cursor, now, |now|);
  }

  // ---------------------------------------------------------------------------
  // The scenarios of tests/test_scrollterm.py

  /** `test_capture`: the screens `a b c d` and `b c d e` are read back as
      they are. */
  lemma CaptureTestScreens()
    ensures Capture(["a", "b", "c", "d"]) == ["a", "b", "c", "d"]
    ensures Capture(["b", "c", "d", "e"]) == ["b", "c", "d", "e"]
  {
    CaptureKeeps(["a", "b", "c", "d"]);
    CaptureKeeps(["b", "c", "d", "e"]);
  }

  /** Trailing whitespace is dropped from every captured line. */
  lemma CaptureStripsLines()
    ensures Capture(["a ", "b\t", "c", "d  "]) == ["a", "b", "c", "d"]
  {
    assert RStrip("a ") == "a" by { assert RStrip("a") == "a"; }
    assert RStrip("b\t") == "b" by { assert RStrip("b") == "b"; }
    assert RStrip("d  ") == "d" by { assert RStrip("d ") == RStrip("d"); }
  }

  /** `test_intr_same_lines`. */
  lemma SameLinesCases()
    ensures SameLines(["a", "b"], ["a", "b"], "_") == (true, false)
    ensures SameLines(["a", "b"], ["a", "bb"], "_") == (false, false)
    ensures SameLines(["a", "b_"], ["a", "bb"], "_") == (true, true)
    ensures SameLines(["a", "bb_"], ["a", "bb"], "_") == (true, true)
    ensures SameLines(["a", "bb_"], ["a", "bbbbb"], "_") == (true, true)
  {
    assert !EndsWith("b", "_");
    assert EndsWith("b_", "_") && DropLast("b_", 1) == "b";
    assert EndsWith("bb_", "_") && DropLast("bb_", 1) == "bb";
  }

  /** `test_get_lines_once_simple`: the whole first screen, nothing for
      the same screen, then only the lines that scrolled in. Each call
      starts from the tracker the previous one returned. */
  lemma GetLinesOnceSimple()
    ensures GetLinesOnce(Init("_"), ["a", "b", "c", "d"])
            == (["a", "b", "c", "d"], Terminal("_", Some(["a", "b", "c", "d"])))
    ensures GetLinesOnce(Terminal("_", Some(["a", "b", "c", "d"])), ["a", "b", "c", "d"])
            == ([], Terminal("_", Some(["a", "b", "c", "d"])))
    ensures GetLinesOnce(Terminal("_", Some(["a", "b", "c", "d"])), ["b", "c", "d", "e"])
            == (["e"], Terminal("_", Some(["b", "c", "d", "e"])))
    ensures GetLinesOnce(Terminal("_", Some(["b", "c", "d", "e"])), ["d", "e", "f", "g"])
            == (["f", "g"], Terminal("_", Some(["d", "e", "f", "g"])))
  {
    FirstScreen();
    SameScreen();
    ScrollOneLine();
    ScrollTwoLines();
  }

  lemma FirstScreen()
    ensures GetLinesOnce(Init("_"), ["a", "b", "c", "d"])
            == (["a", "b", "c", "d"], Terminal("_", Some(["a", "b", "c", "d"])))
  {
    var a := ["a", "b", "c", "d"];
    CleanScreen(a);
    FromCapture(Init("_"), a, a);
  }

  lemma SameScreen()
    ensures GetLinesOnce(Terminal("_", Some(["a", "b", "c", "d"])), ["a", "b", "c", "d"])
            == ([], Terminal("_", Some(["a", "b", "c", "d"])))
  {
    var a := ["a", "b", "c", "d"];
    CleanScreen(a);
    FromCapture(Terminal("_", Some(a)), a, a);
    assert !EndsWith("d", "_");
    SameTrackYieldsNothing("_", a);
  }

  lemma ScrollOneLine()
    ensures GetLinesOnce(Terminal("_", Some(["a", "b", "c", "d"])), ["b", "c", "d", "e"])
            == (["e"], Terminal("_", Some(["b", "c", "d", "e"])))
  {
    var now := ["b", "c", "d", "e"];
    CleanScreen(now);
    FromCapture(Terminal("_", Some(["a", "b", "c", "d"])), now, now);
    OneLineScroll();
    TrackSeen(["a", "b", "c", "d"], "_", now, 3);
    assert now[3..] == ["e"];
  }

  lemma ScrollTwoLines()
    ensures GetLinesOnce(Terminal("_", Some(["b", "c", "d", "e"])), ["d", "e", "f", "g"])
            == (["f", "g"], Terminal("_", Some(["d", "e", "f", "g"])))
  {
    var now := ["d", "e", "f", "g"];
    CleanScreen(now);
    FromCapture(Terminal("_", Some(["b", "c", "d", "e"])), now, now);
    TwoLineScroll();
    TrackSeen(["b", "c", "d", "e"], "_", now, 2);
    assert now[2..] == ["f", "g"];
  }

  /** Lines without trailing whitespace survive the capture unchanged. */
  lemma CaptureKeeps(xs: seq<string>)
    requires forall i :: 0 <= i < |xs| ==> |xs[i]| == 0 || !IsSpace(xs[i][|xs[i]| - 1])
    ensures Capture(xs) == xs
  {
    var c := Capture(xs);
    forall i | 0 <= i < |xs| ensures c[i] == xs[i] {
    }
  }

  /** A screen whose last line is not blank has no tail to clear. */
  lemma ClearKeeps(xs: seq<string>)
    requires |xs| > 0 && !IsBlank(xs[|xs| - 1])
    ensures ClearEmptyTail(xs) == xs
  {
  }

  /** An empty line at the bottom is cleared. */
  lemma ClearEmptyLine(xs: seq<string>)
    ensures ClearEmptyTail(xs + [""]) == ClearEmptyTail(xs)
  {
    var ys := xs + [""];
    assert ys[..|ys| - 1] == xs;
    StripEmpty();
  }

  lemma StripEmpty()
    ensures Strip("") == []
  {
  }

  /** A screen of one-letter lines is its own cleaned capture. */
  lemma CleanScreen(xs: seq<string>)
    requires |xs| > 0 && forall i :: 0 <= i < |xs| ==> |xs[i]| == 1 && !IsSpace(xs[i][0])
    ensures ClearEmptyTail(Capture(xs)) == xs
  {
    CaptureKeeps(xs);
    assert !IsBlank(xs[|xs| - 1]) by {
      assert !IsSpace(xs[|xs| - 1][0]);
    }
    ClearKeeps(xs);
  }

  /** `test_get_lines_once_slow_line`: a line shown while being typed is
      returned again once it is complete. */
  lemma GetLinesOnceSlowLine()
    ensures GetLinesOnce(Init("_"), ["a", "b_", "", ""]) == (["a", "b_"], Terminal("_", Some(["a", "b_"])))
    ensures GetLinesOnce(Terminal("_", Some(["a", "b_"])), ["a", "bbb", "", ""])
            == (["bbb"], Terminal("_", Some(["a", "bbb"])))
    ensures GetLinesOnce(Terminal("_", Some(["a", "bbb"])), ["a", "bbb", "c", ""])
            == (["c"], Terminal("_", Some(["a", "bbb", "c"])))
  {
    SlowLineFirst();
    SlowLineSecond();
    SlowLineThird();
  }

  /** The cleaned capture of `xs` followed by empty lines. */
  lemma CleanPadded(xs: seq<string>, pad: nat)
    requires |xs| > 0 && forall i :: 0 <= i < |xs| ==> |xs[i]| > 0 && !IsSpace(xs[i][|xs[i]| - 1])
    ensures ClearEmptyTail(Capture(xs + EmptyLines(pad))) == xs
  {
    var ys := xs + EmptyLines(pad);
    assert forall i :: |xs| <= i < |ys| ==> ys[i] == "";
    CaptureKeeps(ys);
    var last := xs[|xs| - 1];
    assert !IsBlank(last) by {
      assert !IsSpace(last[|last| - 1]);
    }
    ClearPadded(xs, pad);
  }

  /** `n` empty lines. */
  function EmptyLines(n: nat): (r: seq<string>)
    ensures |r| == n && forall i :: 0 <= i < n ==> r[i] == ""
  {
    if n == 0 then [] else EmptyLines(n - 1) + [""]
  }

  lemma {:induction false} ClearPadded(xs: seq<string>, pad: nat)
    requires |xs| > 0 && !IsBlank(xs[|xs| - 1])
    ensures ClearEmptyTail(xs + EmptyLines(pad)) == xs
    decreases pad
  {
    if pad == 0 {
      assert xs + EmptyLines(pad) == xs;
      ClearKeeps(xs);
    } else {
      assert xs + EmptyLines(pad) == (xs + EmptyLines(pad - 1)) + [""];
      ClearPadded(xs, pad - 1);
      ClearStep(xs, xs + EmptyLines(pad - 1));
    }
  }

  lemma ClearStep(xs: seq<string>, zs: seq<string>)
    requires ClearEmptyTail(zs) == xs
    ensures ClearEmptyTail(zs + [""]) == xs
  {
    ClearEmptyLine(zs);
  }

  lemma SlowLineFirst()
    ensures GetLinesOnce(Init("_"), ["a", "b_", "", ""]) == (["a", "b_"], Terminal("_", Some(["a", "b_"])))
  {
    var now := ["a", "b_"];
    assert !IsSpace('_');
    CleanPadded(now, 2);
    assert now + EmptyLines(2) == ["a", "b_", "", ""];
    FromCapture(Init("_"), ["a", "b_", "", ""], now);
  }

  lemma SlowLineSecond()
    ensures GetLinesOnce(Terminal("_", Some(["a", "b_"])), ["a", "bbb", "", ""])
            == (["bbb"], Terminal("_", Some(["a", "bbb"])))
  {
    var now := ["a", "bbb"];
    SecondScreen();
    FromCapture(Terminal("_", Some(["a", "b_"])), ["a", "bbb", "", ""], now);
    PartialLineSeen();
    TrackSeen(["a", "b_"], "_", now, 1);
    assert now[1..] == ["bbb"];
  }

  lemma SlowLineThird()
    ensures GetLinesOnce(Terminal("_", Some(["a", "bbb"])), ["a", "bbb", "c", ""])
            == (["c"], Terminal("_", Some(["a", "bbb", "c"])))
  {
    var now := ["a", "bbb", "c"];
    ThirdScreen();
    FromCapture(Terminal("_", Some(["a", "bbb"])), ["a", "bbb", "c", ""], now);
    CompletedLineSeen();
    TrackSeen(["a", "bbb"], "_", now, 2);
    assert now[2..] == ["c"];
  }

  lemma SecondScreen()
    ensures ClearEmptyTail(Capture(["a", "bbb", "", ""])) == ["a", "bbb"]
  {
    var now := ["a", "bbb"];
    assert now + EmptyLines(2) == ["a", "bbb", "", ""];
    CleanPadded(now, 2);
  }

  lemma ThirdScreen()
    ensures ClearEmptyTail(Capture(["a", "bbb", "c", ""])) == ["a", "bbb", "c"]
  {
    var now := ["a", "bbb", "c"];
    assert now + EmptyLines(1) == ["a", "bbb", "c", ""];
    CleanPadded(now, 1);
  }

  /** The line typed so far, `b_`, is matched by `bbb` but counts as unseen. */
  lemma PartialLineSeen()
    ensures SeenLines(["a", "b_"], ["a", "bbb"], "_") == 1
  {
    var before, now := ["a", "b_"], ["a", "bbb"];
    assert EndsWith("b_", "_") && DropLast("b_", 1) == "b" && StartsWith("bbb", "b");
    assert before[|before| - 2..] == before && now[..2] == now;
    assert SameLines(before, now, "_") == (true, true);
    assert ScanOverlap(before, now, 2, "_") == Some(2);
  }

  lemma CompletedLineSeen()
    ensures SeenLines(["a", "bbb"], ["a", "bbb", "c"], "_") == 2
  {
    var before := ["a", "bbb"];
    var now := ["a", "bbb", "c"];
    assert !EndsWith("bbb", "_");
    assert before[|before| - 2..] == before && now[..2] == before;
    assert SameLines(before, now[..2], "_") == (true, false);
    assert ScanOverlap(before, now, 3, "_") == Some(2);
  }

  lemma OneLineScroll()
    ensures SeenLines(["a", "b", "c", "d"], ["b", "c", "d", "e"], "_") == 3
  {
    var before := ["a", "b", "c", "d"];
    var now := ["b", "c", "d", "e"];
    assert !Matches(before, now, 4, "_") by {
      assert before[0] != now[0];
    }
    assert before[|before| - 3..] == ["b", "c", "d"] && now[..3] == ["b", "c", "d"];
    assert !EndsWith("d", "_");
    assert ScanOverlap(before, now, 4, "_") == Some(3);
  }

  lemma TwoLineScroll()
    ensures SeenLines(["b", "c", "d", "e"], ["d", "e", "f", "g"], "_") == 2
  {
    var before := ["b", "c", "d", "e"];
    var now := ["d", "e", "f", "g"];
    assert !Matches(before, now, 4, "_") by {
      assert before[0] != now[0];
    }
    assert !Matches(before, now, 3, "_") by {
      assert before[|before| - 3..][0] == "c" && now[..3][0] == "d";
    }
    assert before[|before| - 2..] == ["d", "e"] && now[..2] == ["d", "e"];
    assert !EndsWith("e", "_");
    assert ScanOverlap(before, now, 4, "_") == Some(2);
  }
}
