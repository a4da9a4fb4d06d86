/**
 * The script's top level around the staging handler: the existence check
 * `parse_ini` applies to every file the ini file names, the FPGA target
 * name, the machine name that names the staging folder, the command line
 * `run_spec2k6` hands to the FPGA runner, and the main block that puts
 * them together.  The host name and the server's IP address are
 * parameters; running the command is not modelled.
 */
module Runner {
  import opened Wrappers
  import opened PyStr
  import opened PosixPath
  import opened FileSystem
  import opened Md5
  import opened Staging

  // -----------------------------------------------------------------------
  // is_file_exist, the target name, the machine name
  // -----------------------------------------------------------------------

  /** `is_file_exist(filename)`: the name itself when something readable is
      there; otherwise the script prints a message and exits with status 1,
      which is the error. */
  function IsFileExist(fs: Fs, filename: Path): (r: Result<Path, int>)
    ensures r.Ok? <==> Exists(fs, filename)
    ensures r.Ok? ==> r.value == filename
    ensures r.Err? ==> r.error == 1
  {
    if Exists(fs, filename) then Ok(filename) else Err(1)
  }

  /** On a path the handler has already made absolute, its own
      `is_file_exist` and the script's agree. */
  lemma IsFileExistAgrees(h: PreparationHandler, path: Path)
    requires IsAbs(h.cwd)
    ensures var p := Abspath(h.cwd, path);
            h.IsFileExist(p) == (if IsFileExist(h.fs, p).Ok? then p else "")
  {
    AbspathIdempotent(h.cwd, path);
  }

  /** `"{0}_{1}".format(core, target)`: the board target given to the runner. */
  function TargetName(core: string, target: string): (r: string)
    ensures |r| == |core| + 1 + |target|
    ensures r[..|core|] == core && r[|core|] == '_' && r[|core| + 1..] == target
  {
    core + "_" + target
  }

  /** A core name free of `_` is recovered from the target name, and so is
      the board target. */
  lemma TargetNameSplits(core: string, target: string)
    requires '_' !in core
    ensures FirstToken(TargetName(core, target), '_') == core
    ensures TargetName(core, target)[|core| + 1..] == target
  {
    FirstTokenOfPrefix(core, '_', target);
  }

  /** Distinct (core, target) pairs with `_`-free cores name distinct
      targets. */
  lemma TargetNameInjective(c1: string, t1: string, c2: string, t2: string)
    requires '_' !in c1 && '_' !in c2
    requires TargetName(c1, t1) == TargetName(c2, t2)
    ensures c1 == c2 && t1 == t2
  {
    TargetNameSplits(c1, t1);
    TargetNameSplits(c2, t2);
  }

  /** `get_machine_name()`: the host name up to its first `.`.  It holds no
      `.`, is a prefix of the host name and stops at a `.` or at the end. */
  function MachineName(hostName: string): (r: string)
    ensures '.' !in r && r <= hostName
    ensures |r| < |hostName| ==> hostName[|r|] == '.'
  {
    FirstToken(hostName, '.')
  }

  /** A host name without a `.` is its own machine name. */
  lemma MachineNameOfShortName(hostName: string)
    requires '.' !in hostName
    ensures MachineName(hostName) == hostName
  {
  }

  /** The machine name of `m.domain` is `m`. */
  lemma MachineNameOfQualified(m: string, domain: string)
    requires '.' !in m
    ensures MachineName(m + "." + domain) == m
  {
    FirstTokenOfPrefix(m, '.', domain);
  }

  /** The staging folder's name in the main block. */
  function SymlinkDirName(hostName: string): (r: string)
    ensures "symlink_dir_" <= r && r[12..] == MachineName(hostName)
    ensures '.' !in r[12..]
  {
    "symlink_dir_" + MachineName(hostName)
  }

  /** The staging folder is named after the machine: its base name is
      `symlink_dir_` and the machine name, for a host name without `/`. */
  lemma SymlinkDirNamed(dir: Path, hostName: string)
    requires '/' !in hostName
    ensures Basename(dir + "/" + SymlinkDirName(hostName)) == SymlinkDirName(hostName)
    ensures FirstToken(SymlinkDirName(hostName)[12..], '.') == MachineName(hostName)
  {
    var m := MachineName(hostName);
    assert m <= hostName;
    assert '/' !in m by {
      forall i | 0 <= i < |m| ensures m[i] != '/' { assert m[i] == hostName[i]; }
    }
    BasenameOfChild(dir, SymlinkDirName(hostName));
    assert SymlinkDirName(hostName)[12..] == m;
    MachineNameOfShortName(m);
  }

  // -----------------------------------------------------------------------
  // The runner's command line
  // -----------------------------------------------------------------------

  /** What `run_spec2k6` reads from `args`. */
  datatype RunArgs = RunArgs(
    scriptDir: Path,
    target: string,
    spec2k6Size: string,
    spec2k6Iter: int,
    spec2k6Binary: Path,
    spec2k6Casename: string,
    notKeepNbdWhenExit: bool,
    notReflash: bool)

  /** An option on the runner's command line: a flag and its value, or a
      flag alone. */
  datatype Opt = Valued(flag: string, value: string) | Switch(flag: string)

  /** The words one option is written as. */
  function Words(o: Opt): seq<string>
  {
    match o
    case Valued(f, v) => [f, v]
    case Switch(f) => [f]
  }

  /** The words an option list is written as. */
  function Render(opts: seq<Opt>): seq<string>
    decreases |opts|
  {
    if |opts| == 0 then [] else Words(opts[0]) + Render(opts[1..])
  }

  lemma {:induction false} RenderAppend(a: seq<Opt>, b: seq<Opt>)
    ensures Render(a + b) == Render(a) + Render(b)
    decreases |a|
  {
    if |a| == 0 {
      assert a + b == b;
    } else {
      assert (a + b)[0] == a[0];
      assert (a + b)[1..] == a[1..] + b;
      RenderAppend(a[1..], b);
    }
  }

  /** Rendering from the `k`-th option on: that option's words, then the
      rest. */
  lemma RenderFrom(opts: seq<Opt>, k: nat)
    requires k < |opts|
    ensures Render(opts[k..]) == Words(opts[k]) + Render(opts[k + 1..])
  {
    assert opts[k..][1..] == opts[k + 1..];
  }

  /** The runner script `run_spec2k6` starts. */
  function ScriptPath(scriptDir: Path): (r: Path)
    ensures scriptDir + "/" <= r
    ensures Basename(r) == "pro_fpga_run_linux.py"
  {
    BasenameOfChild(scriptDir, "pro_fpga_run_linux.py");
    scriptDir + "/" + "pro_fpga_run_linux.py"
  }

  /** How many times the runner retries. */
  const Retries: int := 3

  /** The handler's staging folder and destinations, as `run_spec2k6` reads
      them. */
  datatype Destinations = Destinations(
    folder: Path, ubootSpl: Path, ubootItb: Path, rootFs: Path, kernel: Path, dtb: Path)

  function HandlerDestinations(h: PreparationHandler): Destinations
    reads h
  {
    Destinations(h.folderPath, h.ubootSplPath, h.ubootItbPath, h.rootFsPath, h.kernelPath, h.dtbPath)
  }

  /** The options `run_spec2k6` always passes, in its order. */
  function FixedOptions(args: RunArgs, d: Destinations, serverIp: string): seq<Opt>
  {
    [ Valued("-t", args.target),
      Valued("-d", d.folder),
      Switch("--nbd"),
      Valued("--uboot-spl-path", d.ubootSpl),
      Valued("--uboot-itb-path", d.ubootItb),
      Valued("--rootfs-path", d.rootFs),
      Valued("--kernel-path", d.kernel),
      Valued("--dtb-path", d.dtb),
      Switch("--fpga-use-static-ip"),
      Valued("--server-ip", serverIp),
      Switch("--spec2k6"),
      Valued("--spec2k6-size", args.spec2k6Size),
      Valued("--spec2k6-iter", IntToDecimal(args.spec2k6Iter)),
      Valued("--spec2k6-binary", args.spec2k6Binary),
      Valued("--spec2k6-casename", args.spec2k6Casename),
      Valued("--retry", IntToDecimal(Retries)) ]
  }

  /** The switches appended after the fixed options. */
  function ExitOptions(args: RunArgs): seq<Opt>
  {
    (if !args.notKeepNbdWhenExit then [Switch("--keep-nbd-when-exit")] else [])
    + (if args.notReflash then [Switch("--skip-linux-boot"), Switch("--skip-program-fpga")] else [])
  }

  /** The switches after the fixed options, written out. */
  lemma ExitWords(args: RunArgs)
    ensures Render(ExitOptions(args)) ==
      (if !args.notKeepNbdWhenExit then ["--keep-nbd-when-exit"] else [])
      + (if args.notReflash then ["--skip-linux-boot", "--skip-program-fpga"] else [])
  {
    var keep: seq<Opt> := if !args.notKeepNbdWhenExit then [Switch("--keep-nbd-when-exit")] else [];
    var skip: seq<Opt> := if args.notReflash then [Switch("--skip-linux-boot"), Switch("--skip-program-fpga")] else [];
    RenderAppend(keep, skip);
    if args.notReflash {
      RenderFrom(skip, 0);
      RenderFrom(skip, 1);
    }
    if !args.notKeepNbdWhenExit {
      RenderFrom(keep, 0);
    }
  }

  /** The fixed options' words followed by the switches' words are the words
      of all the options. */
  lemma AppendExit(head: seq<string>, fixed: seq<Opt>, args: RunArgs, cmd: seq<string>)
    requires cmd == head + Render(fixed)
                    + (if !args.notKeepNbdWhenExit then ["--keep-nbd-when-exit"] else [])
                    + (if args.notReflash then ["--skip-linux-boot", "--skip-program-fpga"] else [])
    ensures cmd == head + Render(fixed + ExitOptions(args))
  {
    ExitWords(args);
    RenderAppend(fixed, ExitOptions(args));
  }

  /** Every option `run_spec2k6` passes. */
  function RunnerOptions(args: RunArgs, d: Destinations, serverIp: string): seq<Opt>
  {
    FixedOptions(args, d, serverIp) + ExitOptions(args)
  }

  /** The command `run_spec2k6` runs. */
  function CommandLine(args: RunArgs, d: Destinations, serverIp: string): seq<string>
  {
    ["python3", ScriptPath(args.scriptDir)] + Render(RunnerOptions(args, d, serverIp))
  }

  // -----------------------------------------------------------------------
  // What the runner reads back
  // -----------------------------------------------------------------------

  /** The runner's flags that take a value. */
  const ValuedFlags: set<string> :=
    { "-t", "-d", "--uboot-spl-path", "--uboot-itb-path", "--rootfs-path",
      "--kernel-path", "--dtb-path", "--server-ip", "--spec2k6-size",
      "--spec2k6-iter", "--spec2k6-binary", "--spec2k6-casename", "--retry" }

  /** Reading words back as options: a flag in `valued` takes the next word
      as its value, any other word is a switch; a valued flag with no word
      after it is an error. */
  function ReadOptions(words: seq<string>, valued: set<string>): Option<seq<Opt>>
    decreases |words|
  {
    if |words| == 0 then Some([])
    else if words[0] in valued then
      if |words| == 1 then None
      else match ReadOptions(words[2..], valued)
        case None => None
        case Some(rest) => Some([Valued(words[0], words[1])] + rest)
    else match ReadOptions(words[1..], valued)
        case None => None
        case Some(rest) => Some([Switch(words[0])] + rest)
  }

  /** Every option is of the kind the reader expects for its flag. */
  predicate WellKinded(opts: seq<Opt>, valued: set<string>)
  {
    forall i :: 0 <= i < |opts| ==> (opts[i].Valued? <==> opts[i].flag in valued)
  }

  /** Options of the expected kinds are read back from their words as they
      were written. */
  lemma {:induction false} ReadRender(opts: seq<Opt>, valued: set<string>)
    requires WellKinded(opts, valued)
    ensures ReadOptions(Render(opts), valued) == Some(opts)
    decreases |opts|
  {
    if |opts| > 0 {
      var w := Render(opts);
      assert w == Words(opts[0]) + Render(opts[1..]);
      assert WellKinded(opts[1..], valued) by {
        forall i | 0 <= i < |opts[1..]| ensures (opts[1..][i].Valued? <==> opts[1..][i].flag in valued) {
          assert opts[1..][i] == opts[i + 1];
        }
      }
      ReadRender(opts[1..], valued);
      assert opts == [opts[0]] + opts[1..];
      if opts[0].Valued? {
        assert w[2..] == Render(opts[1..]);
      } else {
        assert w[1..] == Render(opts[1..]);
      }
    }
  }

  /** The value the runner sees for `flag`: that of its last occurrence. */
  function Lookup(opts: seq<Opt>, flag: string): Option<string>
    decreases |opts|
  {
    if |opts| == 0 then None
    else
      var later := Lookup(opts[1..], flag);
      if later.Some? then later
      else if opts[0].Valued? && opts[0].flag == flag then Some(opts[0].value)
      else None
  }

  /** The runner sees for a flag the value written after it, unless a later
      option gives the flag another value. */
  lemma {:induction false} LookupFinds(opts: seq<Opt>, k: nat)
    requires k < |opts| && opts[k].Valued?
    requires forall j :: k < j < |opts| && opts[j].Valued? ==> opts[j].flag != opts[k].flag
    ensures Lookup(opts, opts[k].flag) == Some(opts[k].value)
    decreases |opts|
  {
    var f := opts[k].flag;
    if k == 0 {
      LookupAbsent(opts[1..], f);
    } else {
      LookupFinds(opts[1..], k - 1);
    }
  }

  /** A flag no option gives a value is seen with none. */
  lemma {:induction false} LookupAbsent(opts: seq<Opt>, flag: string)
    requires forall i :: 0 <= i < |opts| && opts[i].Valued? ==> opts[i].flag != flag
    ensures Lookup(opts, flag) == None
    decreases |opts|
  {
    if |opts| > 0 {
      LookupAbsent(opts[1..], flag);
    }
  }

  lemma WellKindedAppend(a: seq<Opt>, b: seq<Opt>, valued: set<string>)
    requires WellKinded(a, valued) && WellKinded(b, valued)
    ensures WellKinded(a + b, valued)
  {
    forall i | 0 <= i < |a + b| ensures ((a + b)[i].Valued? <==> (a + b)[i].flag in valued) {
      if i >= |a| {
        assert (a + b)[i] == b[i - |a|];
      }
    }
  }

  /** Every option `run_spec2k6` passes is of the kind the runner expects. */
  lemma RunnerOptionsWellKinded(args: RunArgs, d: Destinations, serverIp: string)
    ensures WellKinded(RunnerOptions(args, d, serverIp), ValuedFlags)
  {
    FixedWellKinded(args, d, serverIp);
    assert WellKinded(ExitOptions(args), ValuedFlags);
    WellKindedAppend(FixedOptions(args, d, serverIp), ExitOptions(args), ValuedFlags);
  }

  lemma FixedWellKinded(args: RunArgs, d: Destinations, serverIp: string)
    ensures WellKinded(FixedOptions(args, d, serverIp), ValuedFlags)
  {
  }

  /** The runner reads back, after the interpreter and the script, exactly
      the options `run_spec2k6` meant to pass. */
  lemma CommandReadsBack(args: RunArgs, d: Destinations, serverIp: string)
    ensures var cmd := CommandLine(args, d, serverIp);
            && |cmd| >= 2 && cmd[0] == "python3" && cmd[1] == ScriptPath(args.scriptDir)
            && ReadOptions(cmd[2..], ValuedFlags) == Some(RunnerOptions(args, d, serverIp))
  {
    var opts := RunnerOptions(args, d, serverIp);
    RunnerOptionsWellKinded(args, d, serverIp);
    ReadRender(opts, ValuedFlags);
    assert CommandLine(args, d, serverIp)[2..] == Render(opts);
  }

  /** No flag is given a value twice. */
  predicate DistinctValued(opts: seq<Opt>)
  {
    forall i, j :: 0 <= i < j < |opts| && opts[i].Valued? && opts[j].Valued? ==> opts[i].flag != opts[j].flag
  }

  /** Each flag of the fixed options is given its value once. */
  lemma FixedDistinct(args: RunArgs, d: Destinations, serverIp: string)
    ensures DistinctValued(FixedOptions(args, d, serverIp))
  {
  }

  /** Switches appended to options with distinct flags keep them distinct. */
  lemma DistinctPastSwitches(opts: seq<Opt>, switches: seq<Opt>)
    requires DistinctValued(opts)
    requires forall i :: 0 <= i < |switches| ==> switches[i].Switch?
    ensures DistinctValued(opts + switches)
  {
    forall i, j | 0 <= i < j < |opts + switches| && (opts + switches)[i].Valued? && (opts + switches)[j].Valued?
      ensures (opts + switches)[i].flag != (opts + switches)[j].flag
    {
      if j >= |opts| {
        assert false;
      }
    }
  }

  /** For every option with a value, the runner sees that value under its
      flag: `run_spec2k6` never gives a flag two values. */
  lemma RunnerSeesValues(args: RunArgs, d: Destinations, serverIp: string)
    ensures var opts := RunnerOptions(args, d, serverIp);
            forall k | 0 <= k < |opts| && opts[k].Valued? :: Lookup(opts, opts[k].flag) == Some(opts[k].value)
  {
    var opts := RunnerOptions(args, d, serverIp);
    FixedDistinct(args, d, serverIp);
    DistinctPastSwitches(FixedOptions(args, d, serverIp), ExitOptions(args));
    forall k | 0 <= k < |opts| && opts[k].Valued?
      ensures Lookup(opts, opts[k].flag) == Some(opts[k].value)
    {
      LookupFinds(opts, k);
    }
  }

  /** In particular the runner sees the root filesystem's destination, the
      benchmark's iteration count as `str` writes it, and three retries. */
  lemma RunnerSeesRootFsAndRetries(args: RunArgs, d: Destinations, serverIp: string)
    ensures var opts := RunnerOptions(args, d, serverIp);
            && Lookup(opts, "--rootfs-path") == Some(d.rootFs)
            && Lookup(opts, "--spec2k6-iter") == Some(IntToDecimal(args.spec2k6Iter))
            && Lookup(opts, "--retry") == Some("3")
  {
    var opts := RunnerOptions(args, d, serverIp);
    RunnerSeesValues(args, d, serverIp);
    assert opts[5] == Valued("--rootfs-path", d.rootFs);
    assert opts[12] == Valued("--spec2k6-iter", IntToDecimal(args.spec2k6Iter));
    assert opts[15] == Valued("--retry", IntToDecimal(Retries));
    assert IntToDecimal(Retries) == "3";
  }

  /** The command starts with the interpreter, the script and the words of
      the fixed options, the last of which is three retries; after them come
      `--keep-nbd-when-exit` exactly when `not_keep_nbd_when_exit` is false,
      then `--skip-linux-boot` and `--skip-program-fpga`, in that order,
      exactly when `not_reflash` is true. */
  lemma CommandShape(args: RunArgs, d: Destinations, serverIp: string)
    ensures var cmd := CommandLine(args, d, serverIp);
            && ["python3", ScriptPath(args.scriptDir)] + Render(FixedOptions(args, d, serverIp)) <= cmd
            && FixedOptions(args, d, serverIp)[15] == Valued("--retry", "3")
            && cmd[2 + |Render(FixedOptions(args, d, serverIp))|..] ==
                 (if !args.notKeepNbdWhenExit then ["--keep-nbd-when-exit"] else [])
                 + (if args.notReflash then ["--skip-linux-boot", "--skip-program-fpga"] else [])
  {
    var fixed := FixedOptions(args, d, serverIp);
    RenderAppend(fixed, ExitOptions(args));
    ExitWords(args);
    assert IntToDecimal(Retries) == "3";
  }

  /** The only switches among the fixed options. */
  lemma FixedSwitches(args: RunArgs, d: Destinations, serverIp: string)
    ensures forall k | 0 <= k < |FixedOptions(args, d, serverIp)| && FixedOptions(args, d, serverIp)[k].Switch? ::
              FixedOptions(args, d, serverIp)[k].flag in {"--nbd", "--fpga-use-static-ip", "--spec2k6"}
  {
  }

  /** The runner, reading the options back, finds `--keep-nbd-when-exit`
      exactly when `not_keep_nbd_when_exit` is false, and each skip switch
      exactly when `not_reflash` is true. */
  lemma SwitchesFollowArgs(args: RunArgs, d: Destinations, serverIp: string)
    ensures var opts := RunnerOptions(args, d, serverIp);
            && (Switch("--keep-nbd-when-exit") in opts <==> !args.notKeepNbdWhenExit)
            && (Switch("--skip-linux-boot") in opts <==> args.notReflash)
            && (Switch("--skip-program-fpga") in opts <==> args.notReflash)
  {
    var fixed := FixedOptions(args, d, serverIp);
    FixedSwitches(args, d, serverIp);
    assert Switch("--keep-nbd-when-exit") !in fixed;
    assert Switch("--skip-linux-boot") !in fixed;
    assert Switch("--skip-program-fpga") !in fixed;
  }

  /** `run_spec2k6(args, handler)`: the fixed list, then
      `--keep-nbd-when-exit` unless `not_keep_nbd_when_exit`, then the two
      skip switches when `not_reflash`.  The IP address `get_ip_addr` would
      look up is a parameter. */
  method RunSpec2k6(args: RunArgs, handler: PreparationHandler, serverIp: string) returns (cmd: seq<string>)
    ensures cmd == CommandLine(args, HandlerDestinations(handler), serverIp)
  {
    var scriptPath := args.scriptDir + "/" + "pro_fpga_run_linux.py";
    var d := HandlerDestinations(handler);
    var fixed := FixedOptions(args, d, serverIp);
    cmd := ["python3", scriptPath] + Render(fixed);
    if args.notKeepNbdWhenExit == false {
      cmd := cmd + ["--keep-nbd-when-exit"];
    }
    if args.notReflash == true {
      cmd := cmd + ["--skip-linux-boot"];
      cmd := cmd + ["--skip-program-fpga"];
    }
    AppendExit(["python3", scriptPath], fixed, args, cmd);
  }

  // -----------------------------------------------------------------------
  // The main block
  // -----------------------------------------------------------------------

  /** Every artifact the ini file names can be read. */
  predicate AllSourcesExist(fs: Fs, s: Sources)
  {
    forall p | p in [s.bit, s.ubootItb, s.ubootSpl, s.dtb, s.kernel, s.rootFs] :: Exists(fs, p)
  }

  /** The existence checks of `parse_ini`, in its order: the script
      directory, then the bitstream, U-Boot ITB, U-Boot SPL, device tree,
      kernel and root filesystem.  The first that fails ends the script with
      status 1.  Directories are not in the filesystem model, so whether the
      script directory exists is given. */
  function ParseIniChecks(fs: Fs, scriptDirExists: bool, s: Sources): (r: Result<Sources, int>)
    ensures r.Ok? <==> scriptDirExists && AllSourcesExist(fs, s)
    ensures r.Ok? ==> r.value == s
    ensures r.Err? ==> r.error == 1
  {
    if !scriptDirExists then Err(1)
    else if IsFileExist(fs, s.bit).Err? then Err(IsFileExist(fs, s.bit).error)
    else if IsFileExist(fs, s.ubootItb).Err? then Err(IsFileExist(fs, s.ubootItb).error)
    else if IsFileExist(fs, s.ubootSpl).Err? then Err(IsFileExist(fs, s.ubootSpl).error)
    else if IsFileExist(fs, s.dtb).Err? then Err(IsFileExist(fs, s.dtb).error)
    else if IsFileExist(fs, s.kernel).Err? then Err(IsFileExist(fs, s.kernel).error)
    else if IsFileExist(fs, s.rootFs).Err? then Err(IsFileExist(fs, s.rootFs).error)
    else Ok(s)
  }

  /** The destinations a handler staging `s` in `folder` records. */
  function StagedDestinations(folder: Path, s: Sources): Destinations
  {
    Destinations(folder, StagedPath(folder, s.ubootSpl), StagedPath(folder, s.ubootItb),
                 StagedPath(folder, s.rootFs), StagedPath(folder, s.kernel), StagedPath(folder, s.dtb))
  }

  /** The main block: `parse_ini`'s existence checks, which end the script
      before anything is staged when one fails, and its target name
      `core_target` from the ini file's `core` and `target`; then name the
      staging folder
      after the machine, link the artifacts, copy the root filesystem, and
      build the runner's command.  An exception from the copy ends the
      script before the command is built.  Staging touches only the six
      destinations and the file a linked root filesystem destination leads
      to.  The folder itself is taken to
      exist. */
  method RunAuto(args: RunArgs, core: string, target: string, sources: Sources, md5: Hasher, cwd: Path,
                 hostName: string, serverIp: string, scriptDirExists: bool, fs: Fs)
    returns (fs': Fs, cmd: Option<seq<string>>)
    requires IsAbs(cwd)
    ensures !(scriptDirExists && AllSourcesExist(fs, sources)) ==> fs' == fs && cmd.None?
    ensures scriptDirExists && AllSourcesExist(fs, sources) ==>
            var folder := Abspath(cwd, "./") + "/" + SymlinkDirName(hostName);
            var r := Stage(md5, fs, SymlinkPlan(folder, sources), CopyPlan(folder, sources));
            var iniArgs := args.(target := TargetName(core, target));
            && fs' == r.fs
            && (cmd.Some? <==> r.error.None?)
            && (cmd.Some? ==> cmd.value == CommandLine(iniArgs, StagedDestinations(folder, sources), serverIp))
    ensures scriptDirExists && AllSourcesExist(fs, sources) ==>
            var folder := Abspath(cwd, "./") + "/" + SymlinkDirName(hostName);
            var end := Final(LinkAll(md5, fs, SymlinkPlan(folder, sources)), CopyPlan(folder, sources).dst, MaxSymlinkHops);
            AgreeOutside(fs, fs', Dsts(Plan(folder, sources)) + (if end.Some? then {end.value} else {}))
  {
    var checked := ParseIniChecks(fs, scriptDirExists, sources);
    if checked.Err? {
      return fs, None;
    }
    var iniArgs := args.(target := core + "_" + target);
    var symlinkDir := "symlink_dir_" + MachineName(hostName);
    var handler := new PreparationHandler(sources, md5, cwd, "./", symlinkDir, fs);
    SymlinkStepsFollowPlan(md5, fs, handler.folderPath, sources);
    HandlerStageFrame(md5, fs, handler.folderPath, sources);
    handler.PrepareSymlinks();
    var error := handler.CopyNecessaryFile();
    fs' := handler.fs;
    if error.Some? {
      cmd := None;
    } else {
      var c := RunSpec2k6(iniArgs, handler, serverIp);
      cmd := Some(c);
    }
  }
}
