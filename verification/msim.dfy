/** The MSIM machine controller (htest/vm/msim.py): which architecture it
    runs, the X server it starts, the rewriting of the MSIM configuration
    and the keys it sends for typed text.

    Starting processes, waiting and reading the screen dump are left out;
    the configuration file's lines, the boot and disk images and the
    headless flag are inputs. */
module Msim {
  import opened Wrappers
  import opened Strings

  /** `is_supported(arch)`: `arch in 'mips32/msim'`, a substring test. */
  predicate IsSupported(arch: string) {
    Contains("mips32/msim", arch)
  }

  /** Being a substring, the test accepts more than the one architecture. */
  lemma SupportedArchitectures()
    ensures IsSupported("mips32/msim")
    ensures IsSupported("mips32") && IsSupported("")
    ensures !IsSupported("amd64")
  {
    assert OccursAt("mips32/msim", "mips32/msim", 0);
    assert OccursAt("mips32/msim", "mips32", 0);
    assert OccursAt("mips32/msim", "", 0);
    forall i: nat ensures !OccursAt("mips32/msim", "amd64", i) {
      if i + 5 <= 11 {
        assert "mips32/msim"[i..i + 5][0] != 'a';
      }
    }
  }

  // ---------------------------------------------------------------------------
  // The X server

  /** `_get_xserver_command`: a virtual frame buffer when headless, a nested
      server otherwise, on the given display. */
  function XserverCommand(headless: bool, display: string): (r: seq<string>)
    ensures |r| >= 2 && r[1] == display
    ensures r[0] == (if headless then "Xvfb" else "Xephyr")
    ensures r[2..] == (if headless then ["-screen", "0", "600x400x8"] else ["-screen", "600x400"])
  {
    if headless then ["Xvfb", display, "-screen", "0", "600x400x8"]
    else ["Xephyr", display, "-screen", "600x400"]
  }

  /** `_get_tried_x11_display_numbers(max)`: `:0` to `:max-1`. */
  function DisplayNumbers(max: nat): (r: seq<string>)
    ensures |r| == max
    ensures forall i :: 0 <= i < max ==> |r[i]| > 1 && r[i][0] == ':' && ParseDigits(r[i][1..]) == i
  {
    var r := seq(max, i requires 0 <= i < max => ":" + NatToString(i));
    assert forall i :: 0 <= i < max ==> r[i][1..] == NatToString(i) && ParseDigits(r[i][1..]) == i by {
      forall i | 0 <= i < max ensures r[i][1..] == NatToString(i) && ParseDigits(r[i][1..]) == i {
        ParseNatToString(i);
      }
    }
    r
  }

  /** No display number is tried twice. */
  lemma DisplayNumbersDistinct(max: nat, i: nat, j: nat)
    requires i < j < max
    ensures DisplayNumbers(max)[i] != DisplayNumbers(max)[j]
  {
    var d := DisplayNumbers(max);
    assert ParseDigits(d[i][1..]) != ParseDigits(d[j][1..]);
  }

  // ---------------------------------------------------------------------------
  // MsimVMController._list_matches

  /** `actual` has the length of `expected` and equals it wherever
      `expected` names a token. */
  function ListMatches(actual: seq<string>, expected: seq<Option<string>>): (r: bool)
    ensures r <==> |actual| == |expected|
                   && forall i :: 0 <= i < |actual| && expected[i].Some? ==> actual[i] == expected[i].value
  {
    |actual| == |expected| && MatchesFrom(actual, expected, 0)
  }

  /** The loop of `_list_matches` from position `i` on. */
  function MatchesFrom(actual: seq<string>, expected: seq<Option<string>>, i: nat): (r: bool)
    requires |actual| == |expected| && i <= |actual|
    ensures r <==> forall j :: i <= j < |actual| && expected[j].Some? ==> actual[j] == expected[j].value
    decreases |actual| - i
  {
    if i == |actual| then true
    else if expected[i].Some? && actual[i] != expected[i].value then false
    else MatchesFrom(actual, expected, i + 1)
  }

  // ---------------------------------------------------------------------------
  // MsimVMController._rewrite_configuration

  /** The image names written into the configuration, in double quotes. */
  function Quote(s: string): string {
    "\"" + s + "\""
  }

  /** The memory and the disk the configuration declared last, if any. */
  datatype Declared = Declared(bootmem: Option<string>, disk: Option<string>)

  /** `add rom X 0x1fc00000` declares the boot memory `X`. */
  predicate IsRom(tok: seq<string>) {
    ListMatches(tok, [Some("add"), Some("rom"), None, Some("0x1fc00000")])
  }

  /** `add ddisk D 0x10000200 _` declares the disk `D`. */
  predicate IsDisk(tok: seq<string>) {
    ListMatches(tok, [Some("add"), Some("ddisk"), None, Some("0x10000200"), None])
  }

  /** The declarations after a line with tokens `tok`. */
  function Note(d: Declared, tok: seq<string>): (r: Declared)
    ensures r.bootmem == if IsRom(tok) then Some(tok[2]) else d.bootmem
    ensures r.disk == if IsDisk(tok) then Some(tok[2]) else d.disk
  {
    Declared(if IsRom(tok) then Some(tok[2]) else d.bootmem,
             if IsDisk(tok) then Some(tok[2]) else d.disk)
  }

  /** The declarations after the lines `lines`, read from the first. */
  function After(d: Declared, lines: seq<string>): Declared
    decreases |lines|
  {
    if |lines| == 0 then d else After(Note(d, Split(lines[0])), lines[1..])
  }

  /** One iteration of the loop in `_rewrite_configuration`, in its order:
      note a boot memory, fill in the boot image, note a disk, fill in the
      disk image or drop the line. Returns the output tokens. */
  function RewriteTokens(d: Declared, tok: seq<string>, boot: string, disk: Option<string>): (r: (Declared, seq<string>))
  {
    var bootmem := if IsRom(tok) then Some(tok[2]) else d.bootmem;
    var tok1 := if bootmem.Some? && ListMatches(tok, [bootmem, Some("load"), None]) then tok[2 := Quote(boot)] else tok;
    var dk := if IsDisk(tok1) then Some(tok1[2]) else d.disk;
    var tok2 :=
      if dk.Some? && ListMatches(tok1, [dk, Some("fmap"), None]) then
        if disk.None? then [] else tok1[2 := Quote(disk.value)]
      else tok1;
    (Declared(bootmem, dk), tok2)
  }

  /** `_rewrite_configuration` from the declarations `d` on. */
  function RewriteFrom(d: Declared, lines: seq<string>, boot: string, disk: Option<string>): (r: seq<string>)
    ensures |r| == |lines|
    decreases |lines|
  {
    if |lines| == 0 then []
    else
      var (d', tok) := RewriteTokens(d, Split(lines[0]), boot, disk);
      [Join(tok, " ")] + RewriteFrom(d', lines[1..], boot, disk)
  }

  /** `_rewrite_configuration`: one output line per configuration line. */
  function Rewrite(lines: seq<string>, boot: string, disk: Option<string>): (r: seq<string>)
    ensures |r| == |lines|
  {
    RewriteFrom(Declared(None, None), lines, boot, disk)
  }

  /** What a line becomes under the declarations in force after it. */
  function LineOut(d: Declared, tok: seq<string>, boot: string, disk: Option<string>): (r: seq<string>)
    ensures d.bootmem.Some? && ListMatches(tok, [d.bootmem, Some("load"), None]) ==> r == tok[2 := Quote(boot)]
    ensures d.disk.Some? && ListMatches(tok, [d.disk, Some("fmap"), None]) ==>
              r == if disk.None? then [] else tok[2 := Quote(disk.value)]
    ensures !(|tok| == 3 && tok[1] in {"load", "fmap"}) ==> r == tok
  {
    if d.bootmem.Some? && ListMatches(tok, [d.bootmem, Some("load"), None]) then
      assert [d.bootmem, Some("load"), None][1] == Some("load");
      LoadIsNotFmap();
      tok[2 := Quote(boot)]
    else if d.disk.Some? && ListMatches(tok, [d.disk, Some("fmap"), None]) then
      if disk.None? then [] else tok[2 := Quote(disk.value)]
    else tok
  }

  lemma LoadIsNotFmap()
    ensures "load" != "fmap"
  {
    assert "load"[0] != "fmap"[0];
  }

  /** One iteration notes the declarations of the line as read and
      rewrites it under them. */
  lemma RewriteTokensStep(d: Declared, tok: seq<string>, boot: string, disk: Option<string>)
    ensures RewriteTokens(d, tok, boot, disk) == (Note(d, tok), LineOut(Note(d, tok), tok, boot, disk))
  {
    LoadIsNotFmap();
    var n := Note(d, tok);
    if n.bootmem.Some? && ListMatches(tok, [n.bootmem, Some("load"), None]) {
      var tok1 := tok[2 := Quote(boot)];
      assert |tok| == 3 && |tok1| == 3 && tok1[1] == "load";
      assert !IsDisk(tok) && !IsDisk(tok1) && !IsRom(tok);
      assert !ListMatches(tok1, [n.disk, Some("fmap"), None]);
    } else {
      assert n.bootmem == if IsRom(tok) then Some(tok[2]) else d.bootmem;
    }
  }

  /** The `j`-th output line is the `j`-th input line rewritten under the
      declarations of the lines up to and including it. */
  lemma {:induction false} RewriteFromAt(d: Declared, lines: seq<string>, boot: string, disk: Option<string>, j: nat)
    requires j < |lines|
    ensures RewriteFrom(d, lines, boot, disk)[j]
              == Join(LineOut(After(d, lines[..j + 1]), Split(lines[j]), boot, disk), " ")
    decreases |lines|
  {
    RewriteTokensStep(d, Split(lines[0]), boot, disk);
    var d' := Note(d, Split(lines[0]));
    assert lines[..j + 1][0] == lines[0];
    assert After(d, lines[..j + 1]) == After(d', lines[..j + 1][1..]);
    if j > 0 {
      RewriteFromAt(d', lines[1..], boot, disk, j - 1);
      assert lines[..j + 1][1..] == lines[1..][..j];
    } else {
      assert lines[..1][1..] == [];
    }
  }

  /** Reading two pieces of a configuration one after the other. */
  lemma {:induction false} AfterAppend(d: Declared, a: seq<string>, b: seq<string>)
    ensures After(d, a + b) == After(After(d, a), b)
    decreases |a|
  {
    if |a| > 0 {
      assert (a + b)[0] == a[0];
      assert (a + b)[1..] == a[1..] + b;
      AfterAppend(Note(d, Split(a[0])), a[1..], b);
    } else {
      assert a + b == b;
    }
  }

  /** Lines that declare no boot memory keep the one declared before. */
  lemma {:induction false} AfterKeepsBootmem(d: Declared, lines: seq<string>)
    requires forall i :: 0 <= i < |lines| ==> !IsRom(Split(lines[i]))
    ensures After(d, lines).bootmem == d.bootmem
    decreases |lines|
  {
    if |lines| > 0 {
      assert !IsRom(Split(lines[0]));
      assert forall i :: 0 <= i < |lines[1..]| ==> lines[1..][i] == lines[i + 1];
      AfterKeepsBootmem(Note(d, Split(lines[0])), lines[1..]);
    }
  }

  /** Lines that declare no disk keep the one declared before. */
  lemma {:induction false} AfterKeepsDisk(d: Declared, lines: seq<string>)
    requires forall i :: 0 <= i < |lines| ==> !IsDisk(Split(lines[i]))
    ensures After(d, lines).disk == d.disk
    decreases |lines|
  {
    if |lines| > 0 {
      assert !IsDisk(Split(lines[0]));
      assert forall i :: 0 <= i < |lines[1..]| ==> lines[1..][i] == lines[i + 1];
      AfterKeepsDisk(Note(d, Split(lines[0])), lines[1..]);
    }
  }

  lemma AfterLast(d: Declared, lines: seq<string>)
    requires |lines| > 0
    ensures After(d, lines) == Note(After(d, lines[..|lines| - 1]), Split(lines[|lines| - 1]))
  {
    var n := |lines| - 1;
    assert lines == lines[..n] + [lines[n]];
    AfterAppend(d, lines[..n], [lines[n]]);
    assert [lines[n]][1..] == [];
  }

  /** The boot memory in force at line `j` is the one of the last `add rom`
      line up to it. */
  lemma LastRomInForce(lines: seq<string>, k: nat, j: nat)
    requires k < j < |lines| && IsRom(Split(lines[k]))
    requires forall i :: k < i <= j ==> !IsRom(Split(lines[i]))
    ensures After(Declared(None, None), lines[..j + 1]).bootmem == Some(Split(lines[k])[2])
  {
    var d := Declared(None, None);
    var pre := lines[..k + 1];
    var post := lines[k + 1..j + 1];
    assert lines[..j + 1] == pre + post;
    AfterAppend(d, pre, post);
    AfterLast(d, pre);
    assert pre[..k] == lines[..k] && pre[k] == lines[k];
    AfterKeepsBootmem(After(d, pre), post);
  }

  /** The disk in force at line `j` is the one of the last `add ddisk` line
      up to it. */
  lemma LastDiskInForce(lines: seq<string>, k: nat, j: nat)
    requires k < j < |lines| && IsDisk(Split(lines[k]))
    requires forall i :: k < i <= j ==> !IsDisk(Split(lines[i]))
    ensures After(Declared(None, None), lines[..j + 1]).disk == Some(Split(lines[k])[2])
  {
    var d := Declared(None, None);
    var pre := lines[..k + 1];
    var post := lines[k + 1..j + 1];
    assert lines[..j + 1] == pre + post;
    AfterAppend(d, pre, post);
    AfterLast(d, pre);
    assert pre[..k] == lines[..k] && pre[k] == lines[k];
    AfterKeepsDisk(After(d, pre), post);
  }

  /** After `add rom X 0x1fc00000`, a line `X load _` loads the boot image. */
  lemma BootImageLoaded(lines: seq<string>, boot: string, disk: Option<string>, k: nat, j: nat)
    requires k < j < |lines| && IsRom(Split(lines[k]))
    requires forall i :: k < i <= j ==> !IsRom(Split(lines[i]))
    requires ListMatches(Split(lines[j]), [Some(Split(lines[k])[2]), Some("load"), None])
    ensures Rewrite(lines, boot, disk)[j] == Join([Split(lines[k])[2], "load", Quote(boot)], " ")
  {
    LastRomInForce(lines, k, j);
    RewriteFromAt(Declared(None, None), lines, boot, disk, j);
    var tok := Split(lines[j]);
    assert tok[2 := Quote(boot)] == [Split(lines[k])[2], "load", Quote(boot)];
  }

  /** After `add ddisk D 0x10000200 _`, a line `D fmap _` maps the disk
      image, or is emptied when there is none. */
  lemma DiskImageMapped(lines: seq<string>, boot: string, disk: Option<string>, k: nat, j: nat)
    requires k < j < |lines| && IsDisk(Split(lines[k]))
    requires forall i :: k < i <= j ==> !IsDisk(Split(lines[i]))
    requires ListMatches(Split(lines[j]), [Some(Split(lines[k])[2]), Some("fmap"), None])
    ensures Rewrite(lines, boot, disk)[j]
              == if disk.None? then "" else Join([Split(lines[k])[2], "fmap", Quote(disk.value)], " ")
  {
    LastDiskInForce(lines, k, j);
    var d := After(Declared(None, None), lines[..j + 1]);
    RewriteFromAt(Declared(None, None), lines, boot, disk, j);
    var tok := Split(lines[j]);
    if d.bootmem.Some? && ListMatches(tok, [d.bootmem, Some("load"), None]) {
      assert false;
    }
    if disk.Some? {
      assert tok[2 := Quote(disk.value)] == [Split(lines[k])[2], "fmap", Quote(disk.value)];
    }
  }

  /** Every other line keeps its tokens: only the spacing is normalised. */
  lemma OtherLinesKept(lines: seq<string>, boot: string, disk: Option<string>, j: nat)
    requires j < |lines|
    requires !(|Split(lines[j])| == 3 && Split(lines[j])[1] in {"load", "fmap"})
    ensures Rewrite(lines, boot, disk)[j] == Join(Split(lines[j]), " ")
    ensures Split(Rewrite(lines, boot, disk)[j]) == Split(lines[j])
  {
    RewriteFromAt(Declared(None, None), lines, boot, disk, j);
    SplitJoin(Split(lines[j]));
  }

  // ---------------------------------------------------------------------------
  // MsimVMController.type

  /** The X key names of the characters that are not sent as themselves. */
  const Translations: map<char, string> := map[
    '.' := "period", '-' := "minus", '*' := "asterisk", '/' := "slash",
    '\\' := "backslash", '_' := "underscore", ' ' := "space", '\n' := "Return"]

  /** The `xdotool key` argument for one typed character. */
  function Key(c: char): (r: string)
    ensures IsUpper(c) ==> r == "shift+" + [ToLower(c)]
    ensures !IsUpper(c) && c in Translations ==> r == Translations[c]
    ensures !IsUpper(c) && c !in Translations ==> r == [c]
  {
    if IsUpper(c) then "shift+" + [ToLower(c)]
    else if c in Translations then Translations[c]
    else [c]
  }

  /** `type(what)`: one key per character. */
  function Keys(what: string): (r: seq<string>)
    ensures |r| == |what| && forall i :: 0 <= i < |what| ==> r[i] == Key(what[i])
  {
    seq(|what|, i requires 0 <= i < |what| => Key(what[i]))
  }

  /** The character a key name stands for. */
  function KeyChar(k: string): Option<char> {
    if |k| == 1 then Some(k[0])
    else if |k| == 7 && k[..6] == "shift+" && 'a' <= k[6] <= 'z' then Some((k[6] as int - 32) as char)
    else if k == "period" then Some('.')
    else if k == "minus" then Some('-')
    else if k == "asterisk" then Some('*')
    else if k == "slash" then Some('/')
    else if k == "backslash" then Some('\\')
    else if k == "underscore" then Some('_')
    else if k == "space" then Some(' ')
    else if k == "Return" then Some('\n')
    else None
  }

  /** Every character can be read back from its key. */
  lemma KeyCharOfKey(c: char)
    ensures KeyChar(Key(c)) == Some(c)
  {
    if IsUpper(c) {
      var k := Key(c);
      assert k[..6] == "shift+";
    }
  }

  /** Different texts are typed as different key sequences. */
  lemma KeysInjective(a: string, b: string)
    requires Keys(a) == Keys(b)
    ensures a == b
  {
    forall i | 0 <= i < |a| ensures a[i] == b[i] {
      KeyCharOfKey(a[i]);
      KeyCharOfKey(b[i]);
    }
  }
}
