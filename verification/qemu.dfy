/** The QEMU machine controller (htest/vm/qemu.py): the supported
    architectures, the command line that starts QEMU, the monitor commands
    it sends and the text grid it reads from a screen dump.

    Starting QEMU, the monitor socket and the OCR pipeline are left out;
    what the controller would send is returned instead. */
module Qemu {
  import opened Wrappers
  import opened Strings

  /** The command-line template of each architecture; `{BOOT}` and
      `{MEMORY}` are filled in at boot. */
  const Config: map<string, seq<string>> := map[
    "amd64" := ["qemu-system-x86_64", "-cdrom", "{BOOT}", "-m", "{MEMORY}", "-usb",
                "-device", "intel-hda", "-device", "hda-duplex"],
    "arm32/integratorcp" := ["qemu-system-arm", "-M", "integratorcp", "-usb",
                             "-kernel", "{BOOT}", "-m", "{MEMORY}"],
    "ia32" := ["qemu-system-i386", "-cdrom", "{BOOT}", "-m", "{MEMORY}", "-usb",
               "-device", "intel-hda", "-device", "hda-duplex"],
    "ppc32" := ["qemu-system-ppc", "-usb", "-boot", "d", "-cdrom", "{BOOT}", "-m", "{MEMORY}"]]

  /** `is_supported(arch)`: the architecture has a template. */
  predicate IsSupported(arch: string) {
    arch in Config
  }

  /** The four architectures and nothing else. */
  lemma SupportedArchitectures(arch: string)
    ensures IsSupported(arch) <==> arch in {"amd64", "arm32/integratorcp", "ia32", "ppc32"}
  {
  }

  // ---------------------------------------------------------------------------
  // The command line of `boot`

  /** The template with the placeholders filled in. */
  function Expand(template: seq<string>, boot: string, memory: nat): (r: seq<string>)
    ensures |r| == |template|
    ensures forall i :: 0 <= i < |template| ==>
              r[i] == (if template[i] == "{BOOT}" then boot
                       else if template[i] == "{MEMORY}" then NatToString(memory)
                       else template[i])
  {
    seq(|template|, i requires 0 <= i < |template| =>
      if template[i] == "{BOOT}" then boot
      else if template[i] == "{MEMORY}" then NatToString(memory)
      else template[i])
  }

  /** The arguments after the expanded template: no window when headless,
      then the monitor socket, then the extra options. */
  function Options(headless: bool, monitorFile: string, extra: seq<string>): seq<string> {
    (if headless then ["-display", "none"] else [])
    + ["-monitor", "unix:" + monitorFile + ",server,nowait"]
    + extra
  }

  /** The command `boot` starts; an unknown architecture is a `KeyError`. */
  function BootCommand(arch: string, boot: string, memory: nat, headless: bool,
                       monitorFile: string, extra: seq<string>): (r: Result<seq<string>>)
    ensures r.Err? <==> !IsSupported(arch)
    ensures r.Ok? ==> var n := |Config[arch]|;
                      && |r.value| == n + (if headless then 2 else 0) + 2 + |extra|
                      && r.value[..n] == Expand(Config[arch], boot, memory)
                      && r.value[n..] == Options(headless, monitorFile, extra)
  {
    if arch !in Config then Err("KeyError: " + arch)
    else Ok(Expand(Config[arch], boot, memory) + Options(headless, monitorFile, extra))
  }

  /** The extra options come last, right after the monitor socket, and the
      window is switched off exactly when headless. */
  lemma BootCommandShape(arch: string, boot: string, memory: nat, headless: bool,
                         monitorFile: string, extra: seq<string>)
    requires IsSupported(arch)
    ensures var r := BootCommand(arch, boot, memory, headless, monitorFile, extra).value;
            var m := |r| - |extra|;
            && m >= 2 && r[m..] == extra
            && r[m - 2] == "-monitor" && r[m - 1] == "unix:" + monitorFile + ",server,nowait"
            && (headless <==> m >= 4 && r[m - 4] == "-display" && r[m - 3] == "none")
  {
    var r := BootCommand(arch, boot, memory, headless, monitorFile, extra).value;
    var n := |Config[arch]|;
    var opts := Options(headless, monitorFile, extra);
    assert r[n..] == opts;
    var m := |r| - |extra|;
    assert r[m..] == opts[|opts| - |extra|..];
  }

  /** The boot image follows `-cdrom` or `-kernel` and the memory size
      follows `-m`, on every architecture. */
  lemma ImageAndMemory(arch: string, boot: string, memory: nat)
    requires IsSupported(arch)
    ensures var r := Expand(Config[arch], boot, memory);
            && (exists i :: 0 <= i < |r| - 1 && r[i] in {"-cdrom", "-kernel"} && r[i + 1] == boot)
            && (exists i :: 0 <= i < |r| - 1 && r[i] == "-m" && r[i + 1] == NatToString(memory))
  {
    var t := Config[arch];
    var r := Expand(t, boot, memory);
    if arch == "amd64" || arch == "ia32" {
      assert t[1] == "-cdrom" && t[2] == "{BOOT}" && t[3] == "-m" && t[4] == "{MEMORY}";
      assert r[1] in {"-cdrom", "-kernel"} && r[2] == boot;
      assert r[3] == "-m" && r[4] == NatToString(memory);
    } else if arch == "arm32/integratorcp" {
      assert t[4] == "-kernel" && t[5] == "{BOOT}" && t[6] == "-m" && t[7] == "{MEMORY}";
      assert r[4] in {"-cdrom", "-kernel"} && r[5] == boot;
      assert r[6] == "-m" && r[7] == NatToString(memory);
    } else {
      assert t[4] == "-cdrom" && t[5] == "{BOOT}" && t[6] == "-m" && t[7] == "{MEMORY}";
      assert r[4] in {"-cdrom", "-kernel"} && r[5] == boot;
      assert r[6] == "-m" && r[7] == NatToString(memory);
    }
  }

  // ---------------------------------------------------------------------------
  // The monitor

  /** `_check_is_up`. */
  function CheckIsUp(booted: bool): (r: Result<()>)
    ensures r.Err? <==> !booted
    ensures r.Err? ==> r.msg == "Machine not launched"
  {
    if !booted then Err("Machine not launched") else Ok(())
  }

  /** `_send_command`: the line written to the monitor. */
  function SendCommand(booted: bool, command: string): (r: Result<string>)
    ensures r.Err? <==> !booted
    ensures r.Err? ==> r.msg == "Machine not launched"
    ensures r.Ok? ==> |r.value| == |command| + 1 && r.value[..|command|] == command
                      && r.value[|command|] == '\n'
  {
    var _ :- CheckIsUp(booted);
    Ok(command + "\n")
  }

  /** The monitor's names of the characters not sent as themselves. */
  const Translations: map<char, string> := map[
    ' ' := "spc", '.' := "dot", '-' := "minus", '/' := "slash", '\n' := "ret",
    '_' := "shift-minus", '|' := "shift-backslash", '=' := "equal"]

  /** The key name `type` sends for one character. */
  function Key(c: char): (r: string)
    ensures IsUpper(c) ==> r == "shift-" + [ToLower(c)]
    ensures !IsUpper(c) && c in Translations ==> r == Translations[c]
    ensures !IsUpper(c) && c !in Translations ==> r == [c]
  {
    if IsUpper(c) then "shift-" + [ToLower(c)]
    else if c in Translations then Translations[c]
    else [c]
  }

  /** `type(what)`: one `sendkey` command per character, all failing before
      boot. An empty text sends nothing and so never fails. */
  function Type(booted: bool, what: string): (r: Result<seq<string>>)
    ensures r.Err? <==> !booted && |what| > 0
    ensures r.Err? ==> r.msg == "Machine not launched"
    ensures r.Ok? ==> |r.value| == |what|
                      && forall i :: 0 <= i < |what| ==> r.value[i] == "sendkey " + Key(what[i]) + "\n"
    decreases |what|
  {
    if |what| == 0 then Ok([])
    else
      match SendCommand(booted, "sendkey " + Key(what[0]))
      case Err(e) => Err(e)
      case Ok(line) =>
        match Type(booted, what[1..])
        case Err(e) => Err(e)
        case Ok(rest) => Ok([line] + rest)
  }

  /** The character a key name stands for. */
  function KeyChar(k: string): Option<char> {
    if |k| == 1 then Some(k[0])
    else if |k| == 7 && k[..6] == "shift-" && 'a' <= k[6] <= 'z' then Some((k[6] as int - 32) as char)
    else if k == "spc" then Some(' ')
    else if k == "dot" then Some('.')
    else if k == "minus" then Some('-')
    else if k == "slash" then Some('/')
    else if k == "ret" then Some('\n')
    else if k == "shift-minus" then Some('_')
    else if k == "shift-backslash" then Some('|')
    else if k == "equal" then Some('=')
    else None
  }

  /** Every character can be read back from its key name. */
  lemma KeyCharOfKey(c: char)
    ensures KeyChar(Key(c)) == Some(c)
  {
    if IsUpper(c) {
      var k := Key(c);
      assert k[..6] == "shift-";
    }
  }

  /** Different texts are typed as different command sequences. */
  lemma TypeInjective(a: string, b: string)
    requires Type(true, a) == Type(true, b)
    ensures a == b
  {
    var ka := Type(true, a).value;
    forall i | 0 <= i < |a| ensures a[i] == b[i] {
      var p := "sendkey ";
      assert ka[i] == p + Key(a[i]) + "\n" == p + Key(b[i]) + "\n";
      assert Key(a[i]) == ka[i][|p|..|ka[i]| - 1] == Key(b[i]);
      KeyCharOfKey(a[i]);
      KeyCharOfKey(b[i]);
    }
  }

  // ---------------------------------------------------------------------------
  // The text grid of a screen dump

  /** `cols = width // 8`, `rows = height // 16`: the whole character
      cells of an 8x16 font that fit in the image. */
  function Grid(width: nat, height: nat): (r: (nat, nat))
    ensures r.0 * 8 <= width < (r.0 + 1) * 8
    ensures r.1 * 16 <= height < (r.1 + 1) * 16
  {
    (width / 8, height / 16)
  }
}
