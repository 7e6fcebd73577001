/** Reading a hypervisor's command line back from /proc: the split into arguments and the
    hint that tells which workload it runs. */
module ProcCmdline {
  import opened Wrappers
  import opened LaunchSchema
  import opened Strings
  import opened Paths
  import opened Storage
  import opened Executors

  const NUL := '\0'
  const MARKER := "/run/schedune/"
  const EXEC_ID_FLAG := "--exec-id="

  // ---------- Splitting ----------

  /** What the kernel shows: every argument followed by a NUL. */
  function Cmdline(args: seq<string>): string {
    if args == [] then "" else args[0] + [NUL] + Cmdline(args[1..])
  }

  function SplitCmdline(data: string): seq<string> {
    Split(TrimRight(data, NUL), NUL)
  }

  predicate NulFree(args: seq<string>) {
    forall a | a in args :: NUL !in a
  }

  lemma {:induction false} CmdlineIsJoined(args: seq<string>)
    requires args != []
    ensures Cmdline(args) == Join(args, NUL) + [NUL]
  {
    if |args| == 1 {
      assert args[1..] == [];
    } else {
      CmdlineIsJoined(args[1..]);
    }
  }

  lemma {:induction false} JoinEndsWithLast(args: seq<string>, sep: char)
    requires args != [] && args[|args| - 1] != "" && sep !in args[|args| - 1]
    ensures var s := Join(args, sep); s != "" && s[|s| - 1] != sep
  {
    if |args| > 1 {
      JoinEndsWithLast(args[1..], sep);
    }
  }

  lemma {:induction false} CmdlineSnoc(args: seq<string>, last: string)
    ensures Cmdline(args + [last]) == Cmdline(args) + last + [NUL]
  {
    if args == [] {
      assert [last][1..] == [];
    } else {
      CmdlineSnoc(args[1..], last);
      assert (args + [last])[1..] == args[1..] + [last];
    }
  }

  lemma {:induction false} TrimmedPieces(args: seq<string>)
    requires args != [] && NulFree(args)
    ensures |SplitCmdline(Cmdline(args))| <= |args|
  {
    NulCount(args);
    CmdlineIsJoined(args);
    var s := Join(args, NUL);
    var data := Cmdline(args);
    assert data[..|data| - 1] == s;
    assert multiset(data)[NUL] == multiset(s)[NUL] + 1;
    TrimDropsOnly(s, NUL);
    SplitCounts(TrimRight(s, NUL), NUL);
  }

  lemma {:induction false} NulCount(args: seq<string>)
    requires NulFree(args)
    ensures multiset(Cmdline(args))[NUL] == |args|
  {
    if args != [] {
      NulCount(args[1..]);
      assert args[0] in args;
      assert multiset(args[0])[NUL] == 0;
    }
  }

  lemma {:induction false} TrimDropsOnly(s: string, c: char)
    ensures multiset(TrimRight(s, c))[c] <= multiset(s)[c]
  {
    if s != "" && s[|s| - 1] == c {
      TrimDropsOnly(s[..|s| - 1], c);
      assert s == s[..|s| - 1] + [c];
    }
  }

  /** The arguments come back exactly, unless an empty last argument was trimmed away. */
  lemma SplitInvertsCmdline(args: seq<string>)
    requires args != [] && NulFree(args)
    ensures SplitCmdline(Cmdline(args)) == args <==> args[|args| - 1] != "" || |args| == 1
  {
    if args[|args| - 1] != "" {
      NonEmptyLastComesBack(args);
    } else if |args| == 1 {
      assert args == [""] && args[1..] == [];
      assert Cmdline(args) == [NUL];
      assert [NUL][..0] == "";
      assert TrimRight([NUL], NUL) == "";
    } else {
      EmptyLastIsLost(args);
    }
  }

  lemma NonEmptyLastComesBack(args: seq<string>)
    requires args != [] && NulFree(args) && args[|args| - 1] != ""
    ensures SplitCmdline(Cmdline(args)) == args
  {
    CmdlineIsJoined(args);
    assert args[|args| - 1] in args;
    JoinEndsWithLast(args, NUL);
    TrimOne(Join(args, NUL), NUL);
    SplitJoin(args, NUL);
  }

  lemma TrimOne(s: string, c: char)
    requires s != "" && s[|s| - 1] != c
    ensures TrimRight(s + [c], c) == s
  {
    assert (s + [c])[..|s|] == s;
  }

  lemma EmptyLastIsLost(args: seq<string>)
    requires |args| > 1 && NulFree(args) && args[|args| - 1] == ""
    ensures |SplitCmdline(Cmdline(args))| < |args|
  {
    var front := args[..|args| - 1];
    assert args == front + [""];
    CmdlineSnoc(front, "");
    assert (Cmdline(front) + [NUL])[..|Cmdline(front)|] == Cmdline(front);
    assert Cmdline(front) + "" + [NUL] == Cmdline(front) + [NUL];
    TrimmedPieces(front);
  }

  // ---------- The hint ----------

  /** The component after the first one that is "schedune", if there is such a component. */
  function AfterSchedune(parts: seq<string>): Option<string> {
    if |parts| < 2 then None
    else if parts[0] == "schedune" then Some(parts[1])
    else AfterSchedune(parts[1..])
  }

  /** What one argument makes of the hint found so far. */
  function HintStep(hint: string, arg: string): string {
    var p := if Contains(arg, MARKER) then AfterSchedune(Split(arg, '/')) else None;
    if HasPrefix(arg, EXEC_ID_FLAG) then arg[|EXEC_ID_FLAG|..]
    else if p.Some? then p.value
    else hint
  }

  function HintOf(args: seq<string>): string {
    if args == [] then "" else HintStep(HintOf(args[..|args| - 1]), args[|args| - 1])
  }

  method ExtractHint(args: seq<string>) returns (hint: string)
    ensures hint == HintOf(args)
  {
    hint := "";
    for k := 0 to |args|
      invariant hint == HintOf(args[..k])
    {
      assert args[..k + 1][..k] == args[..k];
      var arg := args[k];
      if Contains(arg, MARKER) {
        var parts := Split(arg, '/');
        var i := 0;
        while i < |parts|
          invariant 0 <= i <= |parts|
          invariant AfterSchedune(parts) == AfterSchedune(parts[i..])
        {
          if parts[i] == "schedune" && i + 1 < |parts| {
            hint := parts[i + 1];
            break;
          }
          i := i + 1;
        }
      }
      if HasPrefix(arg, EXEC_ID_FLAG) {
        hint := arg[|EXEC_ID_FLAG|..];
      }
    }
    assert args[..|args|] == args;
  }

  /** The first component "schedune" that is not the last one gives its successor. */
  lemma {:induction false} FirstScheduneDecides(parts: seq<string>, k: nat)
    requires k + 1 < |parts| && parts[k] == "schedune" && forall j | 0 <= j < k :: parts[j] != "schedune"
    ensures AfterSchedune(parts) == Some(parts[k + 1])
  {
    if k > 0 {
      FirstScheduneDecides(parts[1..], k - 1);
    }
  }

  lemma {:induction false} NoSchedune(parts: seq<string>)
    requires forall j | 0 <= j < |parts| - 1 :: parts[j] != "schedune"
    ensures AfterSchedune(parts) == None
  {
    if |parts| >= 2 {
      NoSchedune(parts[1..]);
    }
  }

  /** An explicit execution id decides the hint, whatever else the argument looks like. */
  lemma FlagDecides(hint: string, id: string)
    ensures HintStep(hint, "--exec-id=" + id) == id
  {
    assert ("--exec-id=" + id)[|EXEC_ID_FLAG|..] == id;
  }

  /** Only an argument with the flag or the path changes the hint. */
  lemma OnlyTheseDecide(hint: string, arg: string)
    requires HintStep(hint, arg) != hint
    ensures "--exec-id=" <= arg || exists before, after :: arg == before + "/run/schedune/" + after
  {
    if Contains(arg, MARKER) {
      var k: nat :| k <= |arg| && ContainsAt(arg, MARKER, k);
      assert arg == arg[..k] + "/run/schedune/" + arg[k + |MARKER|..];
    }
  }

  // ---------- Round trip ----------

  /** An argument that carries a socket path decides the hint, whatever came before it. */
  lemma SocketArgumentDecides(hint: string, head: string, workloadId: string, tail: string)
    requires IsValidId(workloadId)
    requires '/' !in head && '/' !in tail && head != "" && head[0] != '-' && head != "schedune"
    ensures HintStep(hint, SocketPath(head, workloadId, tail)) == workloadId
  {
    var arg := SocketPath(head, workloadId, tail);
    SplitSocket(workloadId, tail, head);
    assert ContainsAt(arg, MARKER, |head|);
    assert arg[0] == head[0] && EXEC_ID_FLAG[0] == '-';
    var rest := ["run", "schedune", workloadId, tail];
    assert [head, "run", "schedune", workloadId, tail][1..] == rest;
    assert rest[1..] == ["schedune", workloadId, tail];
    assert AfterSchedune(rest) == AfterSchedune(rest[1..]) == Some(workloadId);
  }

  /** A command line whose last argument carries a socket path. */
  lemma ArgvRoundTrip(binary: string, args: seq<string>, head: string, workloadId: string, tail: string)
    requires args != [] && NUL !in binary && NulFree(args) && IsValidId(workloadId)
    requires args[|args| - 1] == SocketPath(head, workloadId, tail)
    requires '/' !in head && '/' !in tail && head != "" && head[0] != '-' && head != "schedune"
    ensures var argv := [binary] + args;
            SplitCmdline(Cmdline(argv)) == argv && HintOf(argv) == workloadId
  {
    var argv := [binary] + args;
    assert forall a | a in argv :: a == binary || a in args;
    assert argv[|argv| - 1] == args[|args| - 1];
    SocketArgumentDecides(HintOf(argv[..|argv| - 1]), head, workloadId, tail);
    SplitInvertsCmdline(argv);
  }

  predicate CleanSpec(spec: LaunchSpec) {
    var d := PrimaryDisk(spec);
    NUL !in spec.architecture && NUL !in d.path && NUL !in d.format
  }

  /** The command line of a prepared QEMU launch gives back its own arguments and its own
      workload id, even when the disk path contains the marker itself. */
  lemma QemuRoundTrip(spec: LaunchSpec, missing: string -> bool)
    requires PrepareKvm(spec, missing).Some? && CleanSpec(spec)
    ensures var p := PrepareKvm(spec, missing).value;
            var argv := [p.binaryPath] + p.commandArgs;
            SplitCmdline(Cmdline(argv)) == argv && HintOf(argv) == spec.workloadId
  {
    var p := PrepareKvm(spec, missing).value;
    QemuArgvFacts(spec, missing);
    ArgvRoundTrip(p.binaryPath, p.commandArgs, "unix:var", spec.workloadId, "qemu.sock,server,nowait");
  }

  lemma QemuArgvFacts(spec: LaunchSpec, missing: string -> bool)
    requires PrepareKvm(spec, missing).Some? && CleanSpec(spec)
    ensures IsValidId(spec.workloadId)
    ensures var p := PrepareKvm(spec, missing).value;
            && NUL !in p.binaryPath && p.commandArgs != [] && NulFree(p.commandArgs)
            && p.commandArgs[|p.commandArgs| - 1] == SocketPath("unix:var", spec.workloadId, "qemu.sock,server,nowait")
  {
    var disk, socket := PrimaryDisk(spec), SocketPath("var", spec.workloadId, QEMU_TOKEN + ".sock");
    SocketPathParts(spec.workloadId, QEMU_TOKEN);
    assert PrepareKvm(spec, missing).value.commandArgs == QemuArgs(spec, disk, socket);
    QemuLastArgument(spec, disk);
    SocketNulFree("var", spec.workloadId, QEMU_TOKEN + ".sock");
    QemuArgsNulFree(spec, disk, socket);
    QemuBinaryNulFree(spec.architecture);
  }

  lemma SocketNulFree(head: string, workloadId: string, tail: string)
    requires IsValidId(workloadId) && NUL !in head && NUL !in tail
    ensures NUL !in SocketPath(head, workloadId, tail)
  {
  }

  lemma QemuLastArgument(spec: LaunchSpec, disk: Disk)
    ensures var args := QemuArgs(spec, disk, SocketPath("var", spec.workloadId, QEMU_TOKEN + ".sock"));
            args[|args| - 1] == SocketPath("unix:var", spec.workloadId, "qemu.sock,server,nowait")
  {
    QmpArgument(spec.workloadId);
  }

  lemma QemuBinaryNulFree(architecture: string)
    requires NUL !in architecture
    ensures NUL !in "qemu-system-" + architecture
  {
  }

  lemma QmpArgument(workloadId: string)
    ensures "unix:" + SocketPath("var", workloadId, QEMU_TOKEN + ".sock") + ",server,nowait"
         == SocketPath("unix:var", workloadId, "qemu.sock,server,nowait")
  {
    var w, m := workloadId, "/run/schedune/";
    assert "unix:" + "var" == "unix:var";
    assert QEMU_TOKEN + ".sock" + ",server,nowait" == "qemu.sock,server,nowait";
    Reassociate("unix:", "var", m, w, "/", QEMU_TOKEN + ".sock", ",server,nowait");
  }

  lemma Reassociate(a: string, b: string, m: string, w: string, s: string, c: string, d: string)
    ensures a + (b + m + w + s + c) + d == (a + b) + m + w + s + (c + d)
  {
  }

  lemma QemuArgsNulFree(spec: LaunchSpec, disk: Disk, socket: string)
    requires NUL !in disk.path && NUL !in disk.format && NUL !in socket
    ensures NulFree(QemuArgs(spec, disk, socket))
  {
  }

  lemma CloudHypervisorArgsNulFree(spec: LaunchSpec, disk: Disk, socket: string)
    requires NUL !in disk.path && NUL !in socket
    ensures NulFree(CloudHypervisorArgs(spec, disk, socket))
  {
  }

  lemma CloudHypervisorRoundTrip(spec: LaunchSpec, missing: string -> bool)
    requires PrepareCloudHypervisor(spec, missing).Some? && CleanSpec(spec)
    ensures var p := PrepareCloudHypervisor(spec, missing).value;
            var argv := [p.binaryPath] + p.commandArgs;
            SplitCmdline(Cmdline(argv)) == argv && HintOf(argv) == spec.workloadId
  {
    var p := PrepareCloudHypervisor(spec, missing).value;
    CloudHypervisorArgvFacts(spec, missing);
    ArgvRoundTrip(p.binaryPath, p.commandArgs, "var", spec.workloadId, CH_TOKEN + ".sock");
  }

  lemma CloudHypervisorArgvFacts(spec: LaunchSpec, missing: string -> bool)
    requires PrepareCloudHypervisor(spec, missing).Some? && CleanSpec(spec)
    ensures IsValidId(spec.workloadId)
    ensures var p := PrepareCloudHypervisor(spec, missing).value;
            && NUL !in p.binaryPath && p.commandArgs != [] && NulFree(p.commandArgs)
            && p.commandArgs[|p.commandArgs| - 1] == SocketPath("var", spec.workloadId, CH_TOKEN + ".sock")
  {
    var disk, socket := PrimaryDisk(spec), SocketPath("var", spec.workloadId, CH_TOKEN + ".sock");
    SocketPathParts(spec.workloadId, CH_TOKEN);
    assert PrepareCloudHypervisor(spec, missing).value.commandArgs == CloudHypervisorArgs(spec, disk, socket);
    SocketNulFree("var", spec.workloadId, CH_TOKEN + ".sock");
    CloudHypervisorArgsNulFree(spec, disk, socket);
  }
}
