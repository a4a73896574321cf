/**
  `VRProcessor`, the host side of the protocol: it finds a device (or brings
  up an emulator), pushes an ONNX model, launches the Unity player with the
  model's name and hash, watches logcat for the completion marker, pulls the
  stats file the player wrote and enriches it with device analytics.

  The processor's attributes are set once by its constructor and never
  updated, so they are constants here, and each method is a procedure over
  the `World` that answers its interactions: it takes the number `n` of its
  first interaction and returns, beside its result, the events it caused.
*/
module VRProcessorModel {
  import opened Wrappers
  import opened PyStr
  import PyPath
  import opened HostWorld
  import opened DeviceOutput

  const PackageName: string := "com.DefaultCompany.Test"
  const DeviceModelDir: string := "/sdcard/Android/data/com.DefaultCompany.Test/files"
  const LocalStatsDir: string := "nn-dataset/ab/nn/stat/run"
  const PlayerActivity: string := "com.unity3d.player.UnityPlayerActivity"
  /** The external-data file the exported model refers to. */
  const ExternalDataName: string := "nn.onnx.data"
  /** `f.read(4096)` in `compute_file_hash`. */
  const ChunkSize: nat := 4096
  /** The default `timeout` of `wait_for_completion`, in seconds; `pull_stats` relies on it. */
  const DefaultTimeout: int := 30
  /** `time.sleep(0.1)` after an empty read, in milliseconds. */
  const PollDelayMs: nat := 100
  /** `time.sleep(5)` between emulator polls, in milliseconds. */
  const EmulatorDelayMs: nat := 5000
  /** `range(36)`: connection polls after starting the emulator. */
  const ConnectPolls: nat := 36
  /** `range(24)`: boot-completion polls. */
  const BootPolls: nat := 24

  // ---------------------------------------------------------------------
  // Command lines
  // ---------------------------------------------------------------------

  const DevicesCmd: Command := Command(Adb, ["devices"])
  const MkdirCmd: Command := Command(Adb, ["shell", "mkdir", "-p", DeviceModelDir])
  const ForceStopCmd: Command := Command(Adb, ["shell", "am", "force-stop", PackageName])
  const MeminfoCmd: Command := Command(Adb, ["shell", "cat", "/proc/meminfo"])
  const CpuinfoCmd: Command := Command(Adb, ["shell", "cat", "/proc/cpuinfo"])
  const LogcatClearCmd: Command := Command(Adb, ["logcat", "-c"])
  const LogcatCmd: Command := Command(Adb, ["logcat", "-s", "Unity"])
  const ListAvdsCmd: Command := Command(Emulator, ["-list-avds"])
  const BootQueryCmd: Command := Command(Adb, ["shell", "getprop", "sys.boot_completed"])

  function PushCmd(local: string, remote: string): Command {
    Command(Adb, ["push", local, remote])
  }

  function PullCmd(remote: string, local: string): Command {
    Command(Adb, ["pull", remote, local])
  }

  /** `am start` of the player activity with the model's name and hash as string extras. */
  function LaunchCmd(modelName: string, modelHash: string): Command {
    Command(Adb, ["shell", "am", "start", "-n", PackageName + "/" + PlayerActivity,
                  "--es", "model_name", modelName, "--es", "model_hash", modelHash])
  }

  function StartAvdCmd(avd: string): Command {
    Command(Emulator, ["-avd", avd, "-no-audio", "-no-window"])
  }

  // ---------------------------------------------------------------------
  // Names and paths
  // ---------------------------------------------------------------------

  /** The remote file name of a model: `model_name`, with `.onnx` appended unless it already ends so. */
  function TargetFileName(modelName: string): (f: string)
    ensures EndsWith(f, ".onnx")
    ensures f == modelName || f == modelName + ".onnx"
    ensures EndsWith(modelName, ".onnx") <==> f == modelName
  {
    if EndsWith(modelName, ".onnx") then modelName
    else
      EndsWithAppended(modelName, ".onnx");
      modelName + ".onnx"
  }

  /** Applying the file-name rule to its own output changes nothing. */
  lemma TargetFileNameIdempotent(modelName: string)
    ensures TargetFileName(TargetFileName(modelName)) == TargetFileName(modelName)
  {
  }

  /** Where `push_model` puts the model on the device. */
  function PushTarget(modelName: string): string {
    DeviceModelDir + "/" + TargetFileName(modelName)
  }

  /** The external-data file `push_model` looks for: `nn.onnx.data` in the model's local directory. */
  function CompanionPath(localPath: string): string {
    PyPath.Join(PyPath.Dirname(localPath), ExternalDataName)
  }

  const CompanionTarget: string := DeviceModelDir + "/" + ExternalDataName

  /** The companion file is looked for beside the model, under its fixed name. */
  lemma CompanionBeside(localPath: string)
    ensures PyPath.Dirname(CompanionPath(localPath)) == PyPath.Dirname(localPath)
    ensures PyPath.Basename(CompanionPath(localPath)) == ExternalDataName
  {
    assert '/' !in ExternalDataName;
    PyPath.DirnameShape(localPath);
    PyPath.DirnameOfJoin(PyPath.Dirname(localPath), ExternalDataName);
    PyPath.BasenameOfJoin(PyPath.Dirname(localPath), ExternalDataName);
  }

  /** The stats file the player writes for `modelName`, as the host names it. */
  function DeviceStatsPath(modelName: string): string {
    DeviceModelDir + "/" + modelName + "_stats.json"
  }

  /** `local_stats_dir / model_name`, the directory made before the pull. */
  function LocalRunDir(modelName: string): string {
    PyPath.Join(LocalStatsDir, modelName)
  }

  /** `local_stats_dir / model_name / "android_vr.json"`. */
  function LocalStatsFile(modelName: string): string {
    PyPath.Join(LocalRunDir(modelName), "android_vr.json")
  }

  /** The directory made before the pull is the one that holds the local stats file. */
  lemma LocalStatsFileInRunDir(modelName: string)
    requires modelName != "" && '/' !in modelName
    ensures PyPath.Dirname(LocalStatsFile(modelName)) == LocalRunDir(modelName)
    ensures PyPath.Basename(LocalStatsFile(modelName)) == "android_vr.json"
  {
    assert modelName[0] in modelName;
    var d := LocalRunDir(modelName);
    assert d == LocalStatsDir + "/" + modelName;
    assert d[|d| - 1] == modelName[|modelName| - 1];
    assert PyPath.DirShape(d);
    assert '/' !in "android_vr.json";
    PyPath.DirnameOfJoin(d, "android_vr.json");
    PyPath.BasenameOfJoin(d, "android_vr.json");
  }

  /** The log text whose appearance ends the wait for `modelName`. */
  function Marker(modelName: string): string {
    "DONE " + modelName
  }

  // ---------------------------------------------------------------------
  // Device discovery
  // ---------------------------------------------------------------------

  /** An `adb devices` reply with a line containing `"\tdevice"`. */
  predicate DeviceListed(r: Reply) {
    Succeeded(r) &&
    exists i :: 0 <= i < |ListingLines(r.stdout)| && IsReadyDeviceLine(ListingLines(r.stdout)[i])
  }

  /** An `adb devices` reply with a line containing both `"emulator-"` and `"device"`. */
  predicate EmulatorListed(r: Reply) {
    Succeeded(r) &&
    exists i :: 0 <= i < |ListingLines(r.stdout)| && IsEmulatorLine(ListingLines(r.stdout)[i])
  }

  /**
    `check_adb_connection`: true exactly when `adb devices` exits 0 and lists a
    ready device; a missing adb is reported as false, and any other launch
    exception escapes.
  */
  method CheckAdbConnection(w: World, n: nat) returns (r: Py<bool>, ev: seq<Event>)
    ensures ev == [w.Run(n, DevicesCmd)]
    ensures r.Raised? <==> w.reply(n, DevicesCmd).OsFault?
    ensures r == Returned(true) <==> DeviceListed(w.reply(n, DevicesCmd))
  {
    var reply := w.reply(n, DevicesCmd);
    ev := [Ran(DevicesCmd, reply)];
    match reply {
      case NotFound =>
        r := Returned(false);
      case OsFault =>
        r := Raised;
      case Exited(code, out, _) =>
        r := Returned(false);
        if code == 0 {
          var devices := ReadyDevices(out);
          if devices != [] {
            r := Returned(true);
          }
        }
    }
  }

  /** `is_emulator_running`: any failure is reported as false. */
  method IsEmulatorRunning(w: World, n: nat) returns (running: bool, ev: seq<Event>)
    ensures ev == [w.Run(n, DevicesCmd)]
    ensures running <==> EmulatorListed(w.reply(n, DevicesCmd))
  {
    var reply := w.reply(n, DevicesCmd);
    ev := [Ran(DevicesCmd, reply)];
    running := false;
    if reply.Exited? && reply.code == 0 {
      var emulators := RunningEmulators(reply.stdout);
      running := emulators != [];
    }
  }

  /** The AVD names an `emulator -list-avds` reply gives `get_available_avds`: none unless it exits 0. */
  function AvdList(r: Reply): (avds: seq<string>)
    ensures !Succeeded(r) ==> avds == []
    ensures forall i :: 0 <= i < |avds| ==> avds[i] != "" && Strip(avds[i]) == avds[i]
  {
    if Succeeded(r) then ParseAvds(r.stdout) else []
  }

  /** `get_available_avds`. */
  method GetAvailableAvds(w: World, n: nat) returns (avds: seq<string>, ev: seq<Event>)
    ensures ev == [w.Run(n, ListAvdsCmd)]
    ensures avds == AvdList(w.reply(n, ListAvdsCmd))
  {
    var reply := w.reply(n, ListAvdsCmd);
    ev := [Ran(ListAvdsCmd, reply)];
    avds := [];
    if reply.Exited? && reply.code == 0 {
      avds := ParseAvds(reply.stdout);
    }
  }

  // ---------------------------------------------------------------------
  // Push, hash and launch
  // ---------------------------------------------------------------------

  /**
    `push_model`: `mkdir -p` on the device (its status ignored), the model to
    its target, and, only if that succeeded and `nn.onnx.data` lies beside
    the model, the companion file; true iff every push attempted exited 0.
  */
  method PushModel(w: World, n: nat, localPath: string, modelName: string) returns (ok: bool, ev: seq<Event>)
    ensures 1 <= |ev| <= 3 && ev[0] == w.Run(n, MkdirCmd)
    ensures |ev| >= 2 <==> w.reply(n, MkdirCmd).Exited?
    ensures |ev| >= 2 ==> ev[1] == w.Run(n + 1, PushCmd(localPath, PushTarget(modelName)))
    ensures |ev| == 3 <==> |ev| >= 2 && Succeeded(ev[1].reply) && w.pathExists(CompanionPath(localPath))
    ensures |ev| == 3 ==> ev[2] == w.Run(n + 2, PushCmd(CompanionPath(localPath), CompanionTarget))
    ensures ok <==> |ev| >= 2 && Succeeded(ev[1].reply) && (|ev| == 3 ==> Succeeded(ev[2].reply))
    ensures Observed(w, n, ev)
    ensures forall k :: 0 <= k < |ev| ==> !IsLaunch(ev[k]) && !IsPull(ev[k])
  {
    var filename := TargetFileName(modelName);
    var targetPath := DeviceModelDir + "/" + filename;
    var mkdir := w.reply(n, MkdirCmd);
    ev := [Ran(MkdirCmd, mkdir)];
    assert MkdirCmd.args[..3] != ["shell", "am", "start"] by {
      assert MkdirCmd.args[..3][1] == "mkdir";
    }
    if !mkdir.Exited? {
      return false, ev;
    }
    assert forall a, b :: PushCmd(a, b).args[..3] != ["shell", "am", "start"] by {
      forall a, b ensures PushCmd(a, b).args[..3][0] == "push" { }
    }
    var push := w.reply(n + 1, PushCmd(localPath, targetPath));
    ev := ev + [Ran(PushCmd(localPath, targetPath), push)];
    if !(push.Exited? && push.code == 0) {
      return false, ev;
    }
    var externalDataFile := PyPath.Join(PyPath.Dirname(localPath), ExternalDataName);
    if w.pathExists(externalDataFile) {
      var targetDataPath := DeviceModelDir + "/" + ExternalDataName;
      var pushData := w.reply(n + 2, PushCmd(externalDataFile, targetDataPath));
      ev := ev + [Ran(PushCmd(externalDataFile, targetDataPath), pushData)];
      if !(pushData.Exited? && pushData.code == 0) {
        return false, ev;
      }
    }
    ok := true;
  }

  /** `hashlib.sha256()`: it accumulates the bytes fed to it; its digest is the hash of all of them. */
  class Sha256 {
    var fed: seq<bv8>

    constructor ()
      ensures fed == []
    {
      fed := [];
    }

    method Update(block: seq<bv8>)
      modifies this
      ensures fed == old(fed) + block
    {
      fed := fed + block;
    }

    function HexDigest(sha256: seq<bv8> -> string): string
      reads this
    {
      sha256(fed)
    }
  }

  /**
    `compute_file_hash`: the file is fed to the hash in blocks of at most 4096
    bytes; the digest is the hash of exactly the file's bytes, in order.  A
    file that `open` cannot read (missing, a directory, no permission) raises.
  */
  method ComputeFileHash(w: World, path: string) returns (r: Py<string>)
    ensures r.Raised? <==> w.localFile(path).None?
    ensures r.Returned? ==> r.value == w.sha256(w.localFile(path).value)
  {
    if w.localFile(path).None? {
      return Raised;
    }
    var content := w.localFile(path).value;
    var hasher := new Sha256();
    var pos := 0;
    while pos < |content|
      invariant 0 <= pos <= |content|
      invariant hasher.fed == content[..pos]
    {
      var end := if pos + ChunkSize <= |content| then pos + ChunkSize else |content|;
      var block := content[pos..end];
      hasher.Update(block);
      assert content[..end] == content[..pos] + block;
      pos := end;
    }
    assert content[..pos] == content;
    var digest := hasher.HexDigest(w.sha256);
    return Returned(digest);
  }

  /**
    `run_inference_on_device`: force-stop the player (status ignored), then
    start it with the model's name and hash; true iff the start exits 0.
  */
  method RunInferenceOnDevice(w: World, n: nat, modelName: string, modelHash: string) returns (ok: bool, ev: seq<Event>)
    ensures 1 <= |ev| <= 2 && ev[0] == w.Run(n, ForceStopCmd)
    ensures |ev| == 2 <==> w.reply(n, ForceStopCmd).Exited?
    ensures |ev| == 2 ==> ev[1] == w.Run(n + 1, LaunchCmd(modelName, modelHash))
    ensures ok <==> |ev| == 2 && Succeeded(ev[1].reply)
    ensures Observed(w, n, ev)
    ensures forall k :: 0 <= k < |ev| ==> !IsPush(ev[k]) && !IsPull(ev[k]) && (IsLaunch(ev[k]) <==> k == 1)
  {
    var stop := w.reply(n, ForceStopCmd);
    ev := [Ran(ForceStopCmd, stop)];
    assert ForceStopCmd.args[..3] != ["shell", "am", "start"] by {
      assert ForceStopCmd.args[..3][2] == "force-stop";
    }
    if !stop.Exited? {
      return false, ev;
    }
    var cmd := LaunchCmd(modelName, modelHash);
    var result := w.reply(n + 1, cmd);
    ev := ev + [Ran(cmd, result)];
    ok := result.Exited? && result.code == 0;
  }

  // ---------------------------------------------------------------------
  // Device analytics
  // ---------------------------------------------------------------------

  /** A `memory_info` record. */
  function MemoryRecord(total: string, free: string): JsonObject {
    map["total_ram_kb" := JStr(total), "free_ram_kb" := JStr(free)]
  }

  /** The `memory_info` record a `cat /proc/meminfo` listing specifies: MemTotal and MemFree, or `Unknown`. */
  function MemoryInfo(out: string): JsonObject {
    MemoryRecord(MemGet(out, "MemTotal"), MemGet(out, "MemFree"))
  }

  /** The `cpu_info` record once `cat /proc/cpuinfo` exited 0. */
  const CpuCaptured: JsonObject := map["raw" := JStr("CPU info captured")]

  /** The `analytics` dictionary: a timestamp, a memory record and a CPU record. */
  function Analytics(timestamp: int, memoryInfo: JsonObject, cpuInfo: JsonObject): (a: JsonObject)
    ensures a.Keys == {"timestamp", "memory_info", "cpu_info"}
  {
    map["timestamp" := JNum(timestamp), "memory_info" := JObj(memoryInfo), "cpu_info" := JObj(cpuInfo)]
  }

  /**
    `collect_device_analytics`: a timestamp, the memory record when meminfo
    exits 0 (else `{}`), and the CPU marker when cpuinfo exits 0 (else `{}`).
    An exception launching meminfo skips the cpuinfo query; none escapes.
  */
  method CollectDeviceAnalytics(w: World, n: nat) returns (analytics: JsonObject, ev: seq<Event>)
    ensures 2 <= |ev| <= 3 && ev[0] == Clock(w.clock(n)) && ev[1] == w.Run(n + 1, MeminfoCmd)
    ensures |ev| == 3 <==> w.reply(n + 1, MeminfoCmd).Exited?
    ensures |ev| == 3 ==> ev[2] == w.Run(n + 2, CpuinfoCmd)
    ensures analytics == Analytics(w.clock(n),
                                   if Succeeded(ev[1].reply) then MemoryInfo(ev[1].reply.stdout) else map[],
                                   if |ev| == 3 && Succeeded(ev[2].reply) then CpuCaptured else map[])
  {
    var now := w.clock(n);
    ev := [Clock(now)];
    var memoryInfo: JsonObject := map[];
    var cpuInfo: JsonObject := map[];
    analytics := Analytics(now, memoryInfo, cpuInfo);
    var mem := w.reply(n + 1, MeminfoCmd);
    ev := ev + [Ran(MeminfoCmd, mem)];
    if !mem.Exited? {
      return;
    }
    if mem.code == 0 {
      var memData := MeminfoTable(mem.stdout);
      memoryInfo := MemoryRecord(GetOr(memData, "MemTotal", "Unknown"), GetOr(memData, "MemFree", "Unknown"));
      analytics := Analytics(now, memoryInfo, cpuInfo);
    }
    var cpu := w.reply(n + 2, CpuinfoCmd);
    ev := ev + [Ran(CpuinfoCmd, cpu)];
    if cpu.Exited? && cpu.code == 0 {
      cpuInfo := CpuCaptured;
      analytics := Analytics(now, memoryInfo, cpuInfo);
    }
  }

  // ---------------------------------------------------------------------
  // Waiting for the completion marker
  // ---------------------------------------------------------------------

  /** One pass of the monitoring loop: it leaves with `found` after `tail`, or goes round again from interaction `next` after `head`. */
  datatype Pass = Leave(found: bool, tail: seq<Event>) | Again(head: seq<Event>, next: nat)

  /**
    The pass of the monitoring loop of `wait_for_completion` whose clock
    reading at the loop head is interaction `k`.  The deadline is tested
    only at the loop head; a read that blocks is not interrupted.
  */
  function WatchPass(w: World, k: nat, start: int, deadline: int, marker: string): (p: Pass)
    ensures p.Again? ==> p.next > k && w.clock(k) - start < deadline
  {
    var now := w.clock(k);
    if now - start >= deadline then Leave(false, [Clock(now), Terminated])
    else
      match w.readLine(k + 1)
      case ReadFault => Leave(false, [Clock(now), ReadLine(ReadFault), Terminated])
      case Line(text) =>
        if text == "" then Again([Clock(now), ReadLine(Line("")), Slept(PollDelayMs)], k + 3)
        else if Contains(text, marker) then Leave(true, [Clock(now), ReadLine(Line(text)), Terminated])
        else Again([Clock(now), ReadLine(Line(text))], k + 2)
  }

  /**
    The monitoring loop from the loop head at interaction `k`: whether the
    marker was seen, and the events up to and including `terminate()`.
  */
  ghost function Watch(w: World, k: nat, start: int, deadline: int, marker: string): (bool, seq<Event>)
    requires w.Reaches(start + deadline)
    decreases w.Horizon(start + deadline) - k
  {
    match WatchPass(w, k, start, deadline, marker)
    case Leave(found, tail) => (found, tail)
    case Again(head, next) =>
      var rest := Watch(w, next, start, deadline, marker);
      (rest.0, head + rest.1)
  }

  /**
    The whole of `wait_for_completion(model_name, timeout)` from interaction
    `n`: the start time, `logcat -c`, the `logcat -s Unity` pipe, then the
    loop.  Neither the clear nor the pipe is inside the `try`, so a failure to
    launch either raises.
  */
  ghost function WaitOutcome(w: World, n: nat, modelName: string, timeout: int): (Py<bool>, seq<Event>)
    requires w.Reaches(w.clock(n) + timeout * 1000)
  {
    var pre := WaitPrefix(w, n);
    if !w.reply(n + 1, LogcatClearCmd).Exited? then (Raised, pre[..2])
    else if !w.reply(n + 2, LogcatCmd).Exited? then (Raised, pre)
    else
      var watch := Watch(w, n + 3, w.clock(n), timeout * 1000, Marker(modelName));
      (Returned(watch.0), pre + watch.1)
  }

  /** The opening events of the wait: the start time, `logcat -c`, and the `logcat -s Unity` pipe. */
  function WaitPrefix(w: World, n: nat): seq<Event> {
    [Clock(w.clock(n)), Ran(LogcatClearCmd, w.reply(n + 1, LogcatClearCmd)), Spawned(LogcatCmd, w.reply(n + 2, LogcatCmd))]
  }

  /** The event reads a line that contains `marker`. */
  predicate MarkerRead(e: Event, marker: string) {
    e.ReadLine? && e.read.Line? && Contains(e.read.text, marker)
  }

  /** Every read in `ev` comes right after a clock reading taken before the deadline. */
  predicate ReadsInTime(ev: seq<Event>, start: int, deadline: int) {
    forall k :: 0 <= k < |ev| && ev[k].ReadLine? ==> 0 < k && ev[k - 1].Clock? && ev[k - 1].ms - start < deadline
  }

  /** `ev` ends with a `terminate()`, and that is the only one. */
  predicate TerminatedOnceAtEnd(ev: seq<Event>) {
    |ev| > 0 && ev[|ev| - 1] == Terminated && forall k :: 0 <= k < |ev| - 1 ==> ev[k] != Terminated
  }

  /** Every empty read is followed by the 0.1 s sleep. */
  predicate SleepsOnEmpty(ev: seq<Event>) {
    forall k :: 0 <= k < |ev| && ev[k] == ReadLine(Line("")) ==> k + 1 < |ev| && ev[k + 1] == Slept(PollDelayMs)
  }

  /** Only clock readings, reads, sleeps and `terminate()`: no command is run. */
  predicate Quiet(ev: seq<Event>) {
    forall k :: 0 <= k < |ev| ==> ev[k].Clock? || ev[k].ReadLine? || ev[k].Slept? || ev[k].Terminated?
  }

  /** How the loop ends without the marker: a read raised, or the clock at the head was past the deadline. */
  predicate GaveUp(ev: seq<Event>, start: int, deadline: int) {
    |ev| >= 2 &&
    (ev[|ev| - 2] == ReadLine(ReadFault) || (ev[|ev| - 2].Clock? && ev[|ev| - 2].ms - start >= deadline))
  }

  lemma QuietConcat(a: seq<Event>, b: seq<Event>)
    requires Quiet(a) && Quiet(b)
    ensures Quiet(a + b)
  {
    forall k | 0 <= k < |a + b|
      ensures (a + b)[k].Clock? || (a + b)[k].ReadLine? || (a + b)[k].Slept? || (a + b)[k].Terminated?
    {
      if k < |a| { assert (a + b)[k] == a[k]; } else { assert (a + b)[k] == b[k - |a|]; }
    }
  }

  /** What one pass records is the world's answers, begins with the clock reading and runs no command. */
  lemma PassObserved(w: World, k: nat, start: int, deadline: int, marker: string)
    ensures var p := WatchPass(w, k, start, deadline, marker);
            var ev := if p.Leave? then p.tail else p.head;
            Observed(w, k, ev) && Quiet(ev) && |ev| >= 2 && ev[0] == Clock(w.clock(k)) &&
            (p.Again? ==> p.next == k + |p.head|)
  {
  }

  /** A pass that goes round again terminates nothing and reads the marker nowhere; one that leaves terminates once, last. */
  lemma PassEnds(w: World, k: nat, start: int, deadline: int, marker: string)
    requires marker != ""
    ensures var p := WatchPass(w, k, start, deadline, marker);
            (p.Again? ==> (forall i :: 0 <= i < |p.head| ==> p.head[i] != Terminated && !MarkerRead(p.head[i], marker))) &&
            (p.Leave? ==> TerminatedOnceAtEnd(p.tail) && (!p.found ==> GaveUp(p.tail, start, deadline)) &&
                          (p.found <==> exists i :: 0 <= i < |p.tail| && MarkerRead(p.tail[i], marker)))
  {
    var p := WatchPass(w, k, start, deadline, marker);
    assert !Contains("", marker);
    if p.Leave? && p.found {
      assert MarkerRead(p.tail[1], marker);
    }
  }

  /** Within one pass, the read follows the clock reading of the loop head, and an empty read is followed by the sleep. */
  lemma PassTimed(w: World, k: nat, start: int, deadline: int, marker: string)
    ensures var p := WatchPass(w, k, start, deadline, marker);
            var ev := if p.Leave? then p.tail else p.head;
            ReadsInTime(ev, start, deadline) && SleepsOnEmpty(ev)
  {
  }

  /** The loop's events are the world's answers, and it runs no command. */
  lemma {:induction false} WatchObserved(w: World, k: nat, start: int, deadline: int, marker: string)
    requires w.Reaches(start + deadline)
    ensures Observed(w, k, Watch(w, k, start, deadline, marker).1)
    ensures Quiet(Watch(w, k, start, deadline, marker).1)
    decreases w.Horizon(start + deadline) - k
  {
    PassObserved(w, k, start, deadline, marker);
    match WatchPass(w, k, start, deadline, marker)
    case Leave(_, _) =>
    case Again(head, next) =>
      var rest := Watch(w, next, start, deadline, marker).1;
      WatchObserved(w, next, start, deadline, marker);
      ObservedConcat(w, k, head, rest);
      QuietConcat(head, rest);
  }

  /** The loop terminates the pipe exactly once, as its last act, on every way out. */
  lemma {:induction false} WatchTerminates(w: World, k: nat, start: int, deadline: int, marker: string)
    requires w.Reaches(start + deadline)
    ensures TerminatedOnceAtEnd(Watch(w, k, start, deadline, marker).1)
    ensures !Watch(w, k, start, deadline, marker).0 ==> GaveUp(Watch(w, k, start, deadline, marker).1, start, deadline)
    decreases w.Horizon(start + deadline) - k
  {
    match WatchPass(w, k, start, deadline, marker)
    case Leave(_, _) =>
      TerminatesLeave(w, k, start, deadline, marker);
    case Again(head, next) =>
      WatchTerminates(w, next, start, deadline, marker);
      WatchStarts(w, next, start, deadline, marker);
      var rest := Watch(w, next, start, deadline, marker).1;
      TerminatesAgain(w, k, start, deadline, marker, rest);
  }

  lemma TerminatesLeave(w: World, k: nat, start: int, deadline: int, marker: string)
    requires WatchPass(w, k, start, deadline, marker).Leave?
    ensures var p := WatchPass(w, k, start, deadline, marker);
            TerminatedOnceAtEnd(p.tail) && (!p.found ==> GaveUp(p.tail, start, deadline))
  {
  }

  lemma TerminatesAgain(w: World, k: nat, start: int, deadline: int, marker: string, rest: seq<Event>)
    requires WatchPass(w, k, start, deadline, marker).Again?
    requires TerminatedOnceAtEnd(rest) && |rest| >= 2
    ensures var head := WatchPass(w, k, start, deadline, marker).head;
            TerminatedOnceAtEnd(head + rest) && (GaveUp(rest, start, deadline) ==> GaveUp(head + rest, start, deadline))
  {
    var head := WatchPass(w, k, start, deadline, marker).head;
    assert forall i :: 0 <= i < |head| ==> head[i] != Terminated;
    var ev := head + rest;
    assert forall i :: |head| <= i < |ev| ==> ev[i] == rest[i - |head|];
    assert forall i :: 0 <= i < |head| ==> ev[i] == head[i];
  }

  /** Every read happens before the deadline. */
  lemma {:induction false} WatchInTime(w: World, k: nat, start: int, deadline: int, marker: string)
    requires w.Reaches(start + deadline)
    ensures ReadsInTime(Watch(w, k, start, deadline, marker).1, start, deadline)
    decreases w.Horizon(start + deadline) - k
  {
    PassTimed(w, k, start, deadline, marker);
    match WatchPass(w, k, start, deadline, marker)
    case Leave(_, _) =>
    case Again(head, next) =>
      var rest := Watch(w, next, start, deadline, marker).1;
      WatchInTime(w, next, start, deadline, marker);
      WatchStarts(w, next, start, deadline, marker);
      var ev := head + rest;
      forall i | 0 <= i < |ev| && ev[i].ReadLine? ensures 0 < i && ev[i - 1].Clock? && ev[i - 1].ms - start < deadline {
        if i < |head| {
          assert ev[i] == head[i] && ev[i - 1] == head[i - 1];
        } else {
          assert ev[i] == rest[i - |head|];
          if i > |head| {
            assert ev[i - 1] == rest[i - 1 - |head|];
          }
        }
      }
  }

  /** Every empty read is followed by the sleep. */
  lemma {:induction false} WatchSleeps(w: World, k: nat, start: int, deadline: int, marker: string)
    requires w.Reaches(start + deadline)
    ensures SleepsOnEmpty(Watch(w, k, start, deadline, marker).1)
    decreases w.Horizon(start + deadline) - k
  {
    PassTimed(w, k, start, deadline, marker);
    match WatchPass(w, k, start, deadline, marker)
    case Leave(_, _) =>
    case Again(head, next) =>
      var rest := Watch(w, next, start, deadline, marker).1;
      WatchSleeps(w, next, start, deadline, marker);
      var ev := head + rest;
      forall i | 0 <= i < |ev| && ev[i] == ReadLine(Line("")) ensures i + 1 < |ev| && ev[i + 1] == Slept(PollDelayMs) {
        if i >= |head| {
          assert ev[i] == rest[i - |head|];
          assert ev[i + 1] == rest[i + 1 - |head|];
        } else {
          assert ev[i] == head[i];
          assert i + 1 < |head| && ev[i + 1] == head[i + 1];
        }
      }
  }

  /** Every pass of the loop begins with a clock reading. */
  lemma WatchStarts(w: World, k: nat, start: int, deadline: int, marker: string)
    requires w.Reaches(start + deadline)
    ensures |Watch(w, k, start, deadline, marker).1| >= 2
    ensures Watch(w, k, start, deadline, marker).1[0] == Clock(w.clock(k))
  {
    PassObserved(w, k, start, deadline, marker);
  }

  /** The loop reports success exactly when it read a line containing the marker. */
  lemma {:induction false} WatchFound(w: World, k: nat, start: int, deadline: int, marker: string)
    requires w.Reaches(start + deadline)
    requires marker != ""
    ensures Watch(w, k, start, deadline, marker).0 <==>
            exists i :: 0 <= i < |Watch(w, k, start, deadline, marker).1| && MarkerRead(Watch(w, k, start, deadline, marker).1[i], marker)
    decreases w.Horizon(start + deadline) - k
  {
    PassEnds(w, k, start, deadline, marker);
    match WatchPass(w, k, start, deadline, marker)
    case Leave(_, _) =>
    case Again(head, next) =>
      WatchFound(w, next, start, deadline, marker);
      var rest := Watch(w, next, start, deadline, marker).1;
      var ev := head + rest;
      assert forall i :: |head| <= i < |ev| ==> ev[i] == rest[i - |head|];
      assert forall i :: 0 <= i < |head| ==> ev[i] == head[i];
      if exists i :: 0 <= i < |rest| && MarkerRead(rest[i], marker) {
        var i :| 0 <= i < |rest| && MarkerRead(rest[i], marker);
        assert ev[|head| + i] == rest[i];
      }
  }

  /** Putting the three opening events before a loop trace keeps what is proved about the loop. */
  lemma PrefixKeeps(pre: seq<Event>, rest: seq<Event>, start: int, deadline: int, marker: string)
    requires |pre| == 3 && pre[0].Clock? && pre[1].Ran? && pre[2].Spawned?
    requires |rest| >= 2 && rest[0].Clock?
    requires ReadsInTime(rest, start, deadline) && SleepsOnEmpty(rest) && TerminatedOnceAtEnd(rest)
    ensures ReadsInTime(pre + rest, start, deadline) && SleepsOnEmpty(pre + rest) && TerminatedOnceAtEnd(pre + rest)
    ensures GaveUp(rest, start, deadline) ==> GaveUp(pre + rest, start, deadline)
    ensures (exists i :: 0 <= i < |pre + rest| && MarkerRead((pre + rest)[i], marker)) <==>
            (exists i :: 0 <= i < |rest| && MarkerRead(rest[i], marker))
  {
    var ev := pre + rest;
    assert forall i :: 3 <= i < |ev| ==> ev[i] == rest[i - 3];
    assert forall i :: 0 <= i < 3 ==> ev[i] == pre[i];
    forall i | 0 <= i < |ev| && ev[i].ReadLine? ensures 0 < i && ev[i - 1].Clock? && ev[i - 1].ms - start < deadline {
      assert ev[i] == rest[i - 3];
      if i > 3 {
        assert ev[i - 1] == rest[i - 4];
      }
    }
    if exists i :: 0 <= i < |rest| && MarkerRead(rest[i], marker) {
      var i :| 0 <= i < |rest| && MarkerRead(rest[i], marker);
      assert ev[i + 3] == rest[i];
    }
  }

  /** A failure to clear the log or to open the pipe raises, before any pipe exists to terminate. */
  lemma WaitRaises(w: World, n: nat, modelName: string, timeout: int)
    requires w.Reaches(w.clock(n) + timeout * 1000)
    ensures WaitOutcome(w, n, modelName, timeout).0.Raised? <==>
            !w.reply(n + 1, LogcatClearCmd).Exited? || !w.reply(n + 2, LogcatCmd).Exited?
    ensures WaitOutcome(w, n, modelName, timeout).0.Raised? ==> Terminated !in WaitOutcome(w, n, modelName, timeout).1
  {
  }

  /** The wait's events are the world's answers. */
  lemma WaitObserved(w: World, n: nat, modelName: string, timeout: int)
    requires w.Reaches(w.clock(n) + timeout * 1000)
    ensures Observed(w, n, WaitOutcome(w, n, modelName, timeout).1)
  {
    var ev := WaitOutcome(w, n, modelName, timeout).1;
    assert Observed(w, n, WaitPrefix(w, n));
    if w.reply(n + 1, LogcatClearCmd).Exited? && w.reply(n + 2, LogcatCmd).Exited? {
      var loop := Watch(w, n + 3, w.clock(n), timeout * 1000, Marker(modelName)).1;
      assert ev == WaitPrefix(w, n) + loop;
      WatchObserved(w, n + 3, w.clock(n), timeout * 1000, Marker(modelName));
      ObservedConcat(w, n, WaitPrefix(w, n), loop);
    }
  }

  /** The wait pushes, launches and pulls nothing. */
  lemma WaitQuiet(w: World, n: nat, modelName: string, timeout: int)
    requires w.Reaches(w.clock(n) + timeout * 1000)
    ensures NoTransfer(WaitOutcome(w, n, modelName, timeout).1)
  {
    var ev := WaitOutcome(w, n, modelName, timeout).1;
    assert NoTransfer(WaitPrefix(w, n));
    if w.reply(n + 1, LogcatClearCmd).Exited? && w.reply(n + 2, LogcatCmd).Exited? {
      var loop := Watch(w, n + 3, w.clock(n), timeout * 1000, Marker(modelName)).1;
      assert ev == WaitPrefix(w, n) + loop;
      WatchObserved(w, n + 3, w.clock(n), timeout * 1000, Marker(modelName));
      assert NoTransfer(loop);
      NoTransferConcat(WaitPrefix(w, n), loop);
    }
  }

  /**
    The pipe, once open, is terminated exactly once, last; without the
    marker the loop ended on a failed read or on a clock reading past the
    deadline.  Every read comes right after a clock reading within `timeout`
    seconds of the start, and every empty read is followed by a sleep.
  */
  lemma WaitEnds(w: World, n: nat, modelName: string, timeout: int)
    requires w.Reaches(w.clock(n) + timeout * 1000)
    ensures WaitOutcome(w, n, modelName, timeout).0.Returned? ==> TerminatedOnceAtEnd(WaitOutcome(w, n, modelName, timeout).1)
    ensures WaitOutcome(w, n, modelName, timeout).0 == Returned(false) ==> GaveUp(WaitOutcome(w, n, modelName, timeout).1, w.clock(n), timeout * 1000)
    ensures ReadsInTime(WaitOutcome(w, n, modelName, timeout).1, w.clock(n), timeout * 1000)
    ensures SleepsOnEmpty(WaitOutcome(w, n, modelName, timeout).1)
  {
    if w.reply(n + 1, LogcatClearCmd).Exited? && w.reply(n + 2, LogcatCmd).Exited? {
      var start, deadline, marker := w.clock(n), timeout * 1000, Marker(modelName);
      var loop := Watch(w, n + 3, start, deadline, marker);
      WatchTerminates(w, n + 3, start, deadline, marker);
      WatchInTime(w, n + 3, start, deadline, marker);
      WatchSleeps(w, n + 3, start, deadline, marker);
      WatchStarts(w, n + 3, start, deadline, marker);
      PrefixKeeps(WaitPrefix(w, n), loop.1, start, deadline, marker);
    }
  }

  /** `wait_for_completion` returns true exactly when a line containing `"DONE " + model_name` was read. */
  lemma WaitFound(w: World, n: nat, modelName: string, timeout: int)
    requires w.Reaches(w.clock(n) + timeout * 1000)
    ensures WaitOutcome(w, n, modelName, timeout).0 == Returned(true) <==>
            exists i :: 0 <= i < |WaitOutcome(w, n, modelName, timeout).1| && MarkerRead(WaitOutcome(w, n, modelName, timeout).1[i], Marker(modelName))
  {
    var ev := WaitOutcome(w, n, modelName, timeout).1;
    if w.reply(n + 1, LogcatClearCmd).Exited? && w.reply(n + 2, LogcatCmd).Exited? {
      var start, deadline, marker := w.clock(n), timeout * 1000, Marker(modelName);
      var loop := Watch(w, n + 3, start, deadline, marker);
      WatchFound(w, n + 3, start, deadline, marker);
      assert forall i :: 0 <= i < 3 ==> !MarkerRead(WaitPrefix(w, n)[i], marker);
      assert forall i :: 3 <= i < |ev| ==> ev[i] == loop.1[i - 3];
      if exists i :: 0 <= i < |loop.1| && MarkerRead(loop.1[i], marker) {
        var i :| 0 <= i < |loop.1| && MarkerRead(loop.1[i], marker);
        assert ev[i + 3] == loop.1[i];
      }
    } else {
      assert forall i :: 0 <= i < |ev| ==> !ev[i].ReadLine?;
    }
  }

  /** After events `ev` of the loop that started at loop head `k0`, the loop stands at loop head `k`. */
  ghost predicate Resumes(w: World, k0: nat, k: nat, ev: seq<Event>, start: int, deadline: int, marker: string)
    requires w.Reaches(start + deadline)
  {
    var rest := Watch(w, k, start, deadline, marker);
    var total := Watch(w, k0, start, deadline, marker);
    rest.0 == total.0 && ev + rest.1 == total.1
  }

  /** A pass that goes round again leads to a later loop head, and it started before the clock reached the deadline for good. */
  lemma ResumesAgain(w: World, k0: nat, k: nat, ev: seq<Event>, start: int, deadline: int, marker: string)
    requires w.Reaches(start + deadline) && Resumes(w, k0, k, ev, start, deadline, marker)
    requires WatchPass(w, k, start, deadline, marker).Again?
    ensures var p := WatchPass(w, k, start, deadline, marker);
            Resumes(w, k0, p.next, ev + p.head, start, deadline, marker) &&
            k < p.next && k < w.Horizon(start + deadline)
  {
    var p := WatchPass(w, k, start, deadline, marker);
    var rest := Watch(w, p.next, start, deadline, marker);
    assert Watch(w, k, start, deadline, marker) == (rest.0, p.head + rest.1);
    assert ev + p.head + rest.1 == ev + (p.head + rest.1);
  }

  /** A pass that leaves the loop completes its outcome. */
  lemma ResumesLeave(w: World, k0: nat, k: nat, ev: seq<Event>, start: int, deadline: int, marker: string)
    requires w.Reaches(start + deadline) && Resumes(w, k0, k, ev, start, deadline, marker)
    requires WatchPass(w, k, start, deadline, marker).Leave?
    ensures var p := WatchPass(w, k, start, deadline, marker);
            (p.found, ev + p.tail) == Watch(w, k0, start, deadline, marker)
  {
  }

  /** One pass of the `while` loop of `wait_for_completion`: the deadline test at the loop head, the `readline()`, and what the line leads to. */
  method MonitorPass(w: World, k: nat, start: int, deadline: int, marker: string) returns (p: Pass)
    ensures p == WatchPass(w, k, start, deadline, marker)
  {
    var now := w.clock(k);
    if now - start >= deadline {
      return Leave(false, [Clock(now), Terminated]);
    }
    var read := w.readLine(k + 1);
    match read {
      case ReadFault =>
        p := Leave(false, [Clock(now), ReadLine(ReadFault), Terminated]);
      case Line(text) =>
        if text == "" {
          p := Again([Clock(now), ReadLine(read), Slept(PollDelayMs)], k + 3);
        } else if Contains(text, marker) {
          p := Leave(true, [Clock(now), ReadLine(read), Terminated]);
        } else {
          p := Again([Clock(now), ReadLine(read)], k + 2);
        }
    }
  }

  /** The `while` loop of `wait_for_completion`, from the loop head whose clock reading is interaction `k0`. */
  method MonitorLog(w: World, k0: nat, start: int, deadline: int, marker: string) returns (found: bool, ev: seq<Event>)
    requires w.Reaches(start + deadline)
    ensures (found, ev) == Watch(w, k0, start, deadline, marker)
  {
    ev := [];
    var k := k0;
    while true
      invariant Resumes(w, k0, k, ev, start, deadline, marker)
      decreases w.Horizon(start + deadline) - k
    {
      var pass := MonitorPass(w, k, start, deadline, marker);
      if pass.Leave? {
        ResumesLeave(w, k0, k, ev, start, deadline, marker);
        return pass.found, ev + pass.tail;
      }
      ResumesAgain(w, k0, k, ev, start, deadline, marker);
      ev := ev + pass.head;
      k := pass.next;
    }
  }

  /** `wait_for_completion(model_name, timeout)`; `WaitRaises`, `WaitObserved`, `WaitQuiet`, `WaitEnds` and `WaitFound` say what its outcome means. */
  method WaitForCompletion(w: World, n: nat, modelName: string, timeout: int) returns (r: Py<bool>, ev: seq<Event>)
    requires w.Reaches(w.clock(n) + timeout * 1000)
    ensures (r, ev) == WaitOutcome(w, n, modelName, timeout)
  {
    var start := w.clock(n);
    var clear := w.reply(n + 1, LogcatClearCmd);
    ev := [Clock(start), Ran(LogcatClearCmd, clear)];
    assert ev == WaitPrefix(w, n)[..2];
    if !clear.Exited? {
      return Raised, ev;
    }
    var pipe := w.reply(n + 2, LogcatCmd);
    ev := ev + [Spawned(LogcatCmd, pipe)];
    assert ev == WaitPrefix(w, n);
    if !pipe.Exited? {
      return Raised, ev;
    }
    var found, loop := MonitorLog(w, n + 3, start, timeout * 1000, Marker(modelName));
    ev := ev + loop;
    r := Returned(found);
  }

  // ---------------------------------------------------------------------
  // Pulling the stats
  // ---------------------------------------------------------------------

  /** The key `pull_stats` adds to the pulled document. */
  const AnalyticsKey: string := "device_analytics"

  /**
    `stats` is the pulled document `doc` with `"device_analytics"` set (added or
    overwritten) to an analytics record, and every other key unchanged.
  */
  predicate Merged(doc: JsonObject, stats: JsonObject) {
    stats.Keys == doc.Keys + {AnalyticsKey} &&
    stats[AnalyticsKey].JObj? && stats[AnalyticsKey].fields.Keys == {"timestamp", "memory_info", "cpu_info"} &&
    forall key :: key in doc && key != AnalyticsKey ==> stats[key] == doc[key]
  }

  /** Setting the analytics key of a document merges the analytics into it. */
  lemma MergeAnalytics(doc: JsonObject, analytics: JsonObject)
    requires analytics.Keys == {"timestamp", "memory_info", "cpu_info"}
    ensures Merged(doc, doc[AnalyticsKey := JObj(analytics)])
  {
  }

  /** The analytics queries run nothing but `cat` on the device. */
  lemma AnalyticsNoTransfer(ev: seq<Event>)
    requires 2 <= |ev| <= 3 && ev[0].Clock? && ev[1].Ran? && ev[1].cmd == MeminfoCmd
    requires |ev| == 3 ==> ev[2].Ran? && ev[2].cmd == CpuinfoCmd
    ensures NoTransfer(ev)
  {
    assert MeminfoCmd.args[1] == "cat" && CpuinfoCmd.args[1] == "cat";
    forall k | 0 <= k < |ev| ensures !IsPush(ev[k]) && !IsLaunch(ev[k]) && !IsPull(ev[k]) {
      if k > 0 {
        assert ev[k].cmd.args[..3] != ["shell", "am", "start"] by {
          assert ev[k].cmd.args[..3][1] == "cat";
        }
      }
    }
  }

  /** `json.load` gave a dictionary, the only kind of document `stats["device_analytics"] = ...` can be stored into. */
  predicate IsObject(doc: Option<Json>) {
    doc.Some? && doc.value.JObj?
  }

  /**
    What follows the wait in `pull_stats`, from interaction `m`: the local run
    directory is made and the device's stats file pulled. After an exit-0
    pull the file is loaded; when the load gives a document, the analytics
    are collected (the right-hand side of the store runs first), and when
    that document is an object the merged document is written back and
    returned. The result is None when the pull does not exit 0 (or fails to
    launch), when the load raises, and when the document is not an object
    (the store raises TypeError); the trace then ends before any write, with
    the load or with an analytics query. Only the one pull is a transfer.
  */
  ghost predicate StatsFetched(w: World, m: nat, modelName: string, r: Option<JsonObject>, ev: seq<Event>) {
    FetchEvents(w, m, modelName, ev) && FetchResult(w, m, modelName, r, ev)
  }

  /** The events of the fetch, whatever its result. */
  ghost predicate FetchEvents(w: World, m: nat, modelName: string, ev: seq<Event>) {
    Observed(w, m, ev) &&
    |ev| >= 2 && ev[0] == MadeDirs(LocalRunDir(modelName)) &&
    ev[1] == w.Run(m + 1, PullCmd(DeviceStatsPath(modelName), LocalStatsFile(modelName))) &&
    (!Succeeded(ev[1].reply) ==> |ev| == 2) &&
    (Succeeded(ev[1].reply) ==> |ev| >= 3 && ev[2] == Loaded(LocalStatsFile(modelName), w.parsed(m + 2))) &&
    (Succeeded(ev[1].reply) && w.parsed(m + 2).None? ==> |ev| == 3) &&
    (Succeeded(ev[1].reply) && w.parsed(m + 2).Some? ==>
       |ev| >= 5 && ev[3] == Clock(w.clock(m + 3)) && ev[4] == w.Run(m + 4, MeminfoCmd)) &&
    (forall k :: 0 <= k < |ev| ==> !IsPush(ev[k]) && !IsLaunch(ev[k]) && (IsPull(ev[k]) ==> k == 1))
  }

  /** The result of the fetch, and how its events end. */
  ghost predicate FetchResult(w: World, m: nat, modelName: string, r: Option<JsonObject>, ev: seq<Event>)
    requires |ev| >= 2 && ev[1].Ran?
  {
    (r.Some? <==> Succeeded(ev[1].reply) && IsObject(w.parsed(m + 2))) &&
    (r.Some? ==> Merged(w.parsed(m + 2).value.fields, r.value) && ev[|ev| - 1] == Wrote(LocalStatsFile(modelName), r.value)) &&
    (Succeeded(ev[1].reply) && w.parsed(m + 2).Some? && !w.parsed(m + 2).value.JObj? ==> |ev| <= 6 && ev[|ev| - 1].Ran?)
  }

  /** The part of `pull_stats` after the wait. */
  method FetchStats(w: World, m: nat, modelName: string) returns (r: Option<JsonObject>, ev: seq<Event>)
    ensures StatsFetched(w, m, modelName, r, ev)
  {
    var localFile := LocalStatsFile(modelName);
    var pullCmd := PullCmd(DeviceStatsPath(modelName), localFile);
    var pull := w.reply(m + 1, pullCmd);
    ev := [MadeDirs(LocalRunDir(modelName)), Ran(pullCmd, pull)];
    r := None;
    if !(pull.Exited? && pull.code == 0) {
      FetchedNothing(w, m, modelName, ev);
      return;
    }
    var doc := w.parsed(m + 2);
    ev := ev + [Loaded(localFile, doc)];
    if doc.None? {
      FetchedNothing(w, m, modelName, ev);
      return;
    }
    var analytics, aev := CollectDeviceAnalytics(w, m + 3);
    AnalyticsNoTransfer(aev);
    if !doc.value.JObj? {
      FetchedNotObject(w, m, modelName, ev, aev);
      ev := ev + aev;
      return;
    }
    var stats := doc.value.fields[AnalyticsKey := JObj(analytics)];
    FetchedMerged(w, m, modelName, ev, aev, analytics);
    ev := ev + aev + [Wrote(localFile, stats)];
    r := Some(stats);
  }

  /** A fetch that got a document wrote it back last, with the analytics key in it. */
  lemma FetchedWritten(w: World, m: nat, modelName: string, r: Option<JsonObject>, ev: seq<Event>)
    requires StatsFetched(w, m, modelName, r, ev) && r.Some?
    ensures |ev| >= 1 && ev[|ev| - 1] == Wrote(LocalStatsFile(modelName), r.value) && AnalyticsKey in r.value
  {
  }

  /** The two ways a fetch stops before the analytics: the pull fails, or the load raises. */
  lemma FetchedNothing(w: World, m: nat, modelName: string, ev: seq<Event>)
    requires |ev| >= 2 && ev[..2] == [MadeDirs(LocalRunDir(modelName)), w.Run(m + 1, PullCmd(DeviceStatsPath(modelName), LocalStatsFile(modelName)))]
    requires (|ev| == 2 && !Succeeded(ev[1].reply)) ||
             (|ev| == 3 && Succeeded(ev[1].reply) && ev[2] == Loaded(LocalStatsFile(modelName), w.parsed(m + 2)) && w.parsed(m + 2).None?)
    ensures StatsFetched(w, m, modelName, None, ev)
  {
    assert ev[0] == ev[..2][0] && ev[1] == ev[..2][1];
    assert PullCmd(DeviceStatsPath(modelName), LocalStatsFile(modelName)).args[0] == "pull";
  }

  /**
    A pulled file that loads as JSON but not as an object: the analytics
    `aev` are still collected, then the store raises, so nothing is written
    and the fetch gives None.
  */
  lemma FetchedNotObject(w: World, m: nat, modelName: string, pre: seq<Event>, aev: seq<Event>)
    requires pre == [MadeDirs(LocalRunDir(modelName)), w.Run(m + 1, PullCmd(DeviceStatsPath(modelName), LocalStatsFile(modelName))),
                     Loaded(LocalStatsFile(modelName), w.parsed(m + 2))]
    requires Succeeded(pre[1].reply) && w.parsed(m + 2).Some? && !w.parsed(m + 2).value.JObj?
    requires 2 <= |aev| <= 3 && aev[0] == Clock(w.clock(m + 3)) && aev[1] == w.Run(m + 4, MeminfoCmd)
    requires |aev| == 3 ==> aev[2] == w.Run(m + 5, CpuinfoCmd)
    requires NoTransfer(aev)
    ensures StatsFetched(w, m, modelName, None, pre + aev)
  {
    var ev := pre + aev;
    assert Observed(w, m + 3, aev);
    ObservedConcat(w, m, pre, aev);
    assert forall k :: 3 <= k < |ev| ==> ev[k] == aev[k - 3];
    assert PullCmd(DeviceStatsPath(modelName), LocalStatsFile(modelName)).args[0] == "pull";
  }

  /** A fetch that loaded an object, collected `analytics` as `aev` and wrote the merged document back. */
  lemma FetchedMerged(w: World, m: nat, modelName: string, pre: seq<Event>, aev: seq<Event>, analytics: JsonObject)
    requires pre == [MadeDirs(LocalRunDir(modelName)), w.Run(m + 1, PullCmd(DeviceStatsPath(modelName), LocalStatsFile(modelName))),
                     Loaded(LocalStatsFile(modelName), w.parsed(m + 2))]
    requires Succeeded(pre[1].reply) && IsObject(w.parsed(m + 2))
    requires 2 <= |aev| && aev[0] == Clock(w.clock(m + 3)) && aev[1] == w.Run(m + 4, MeminfoCmd)
    requires Observed(w, m + 3, aev) && NoTransfer(aev)
    requires analytics.Keys == {"timestamp", "memory_info", "cpu_info"}
    ensures var stats := w.parsed(m + 2).value.fields[AnalyticsKey := JObj(analytics)];
            StatsFetched(w, m, modelName, Some(stats), pre + aev + [Wrote(LocalStatsFile(modelName), stats)])
  {
    var stats := w.parsed(m + 2).value.fields[AnalyticsKey := JObj(analytics)];
    var last := Wrote(LocalStatsFile(modelName), stats);
    MergeAnalytics(w.parsed(m + 2).value.fields, analytics);
    FetchedTrace(w, m, pre, aev, last);
    var ev := pre + aev + [last];
    assert ev[0] == pre[0] && ev[1] == pre[1] && ev[2] == pre[2] && ev[3] == aev[0] && ev[4] == aev[1];
    assert PullCmd(DeviceStatsPath(modelName), LocalStatsFile(modelName)).args[0] == "pull";
  }

  /** The events of a fetch that got as far as writing the merged document back. */
  lemma FetchedTrace(w: World, m: nat, pre: seq<Event>, aev: seq<Event>, last: Event)
    requires |pre| == 3 && Observed(w, m, pre) && Observed(w, m + 3, aev) && last.Wrote?
    requires pre[0].MadeDirs? && pre[2].Loaded? && NoTransfer(aev)
    ensures Observed(w, m, pre + aev + [last])
    ensures forall k :: 0 <= k < |pre + aev + [last]| && k != 1 ==>
              !IsPush((pre + aev + [last])[k]) && !IsLaunch((pre + aev + [last])[k]) && !IsPull((pre + aev + [last])[k])
    ensures (pre + aev + [last])[..3] == pre
  {
    ObservedConcat(w, m, pre, aev);
    ObservedConcat(w, m, pre + aev, [last]);
    var ev := pre + aev + [last];
    assert forall k :: 3 <= k < 3 + |aev| ==> ev[k] == aev[k - 3];
  }

  /**
    `pull_stats`: wait for the marker, then fetch the stats whatever the wait
    reported (a timeout is only logged); an exception raised by the wait
    makes the result None before anything is pulled.  `waited` and `waitEv`
    are the wait's own outcome and events, `tail` the events after it.
  */
  method PullStats(w: World, n: nat, modelName: string)
      returns (r: Option<JsonObject>, ev: seq<Event>, ghost waited: Py<bool>, ghost waitEv: seq<Event>, ghost tail: seq<Event>)
    requires w.Reaches(w.clock(n) + DefaultTimeout * 1000)
    ensures (waited, waitEv) == WaitOutcome(w, n, modelName, DefaultTimeout)
    ensures ev == waitEv + tail
    ensures waited.Raised? ==> r.None? && tail == []
    ensures waited.Returned? ==> StatsFetched(w, n + |waitEv|, modelName, r, tail)
    ensures Observed(w, n, ev)
    ensures forall k :: 0 <= k < |ev| ==> !IsPush(ev[k]) && !IsLaunch(ev[k])
    ensures r.Some? ==> |ev| >= 1 && ev[|ev| - 1] == Wrote(LocalStatsFile(modelName), r.value) && AnalyticsKey in r.value
  {
    var done, wev := WaitForCompletion(w, n, modelName, DefaultTimeout);
    waited, waitEv := done, wev;
    WaitObserved(w, n, modelName, DefaultTimeout);
    WaitQuiet(w, n, modelName, DefaultTimeout);
    if done.Raised? {
      return None, wev, waited, waitEv, [];
    }
    var fetched, fev := FetchStats(w, n + |wev|, modelName);
    PulledTrace(w, n, modelName, wev, fev, fetched);
    return fetched, wev + fev, waited, waitEv, fev;
  }

  /** A wait followed by a fetch: the joined events keep what each part promised. */
  lemma PulledTrace(w: World, n: nat, modelName: string, wev: seq<Event>, fev: seq<Event>, r: Option<JsonObject>)
    requires Observed(w, n, wev) && NoTransfer(wev)
    requires StatsFetched(w, n + |wev|, modelName, r, fev)
    ensures Observed(w, n, wev + fev)
    ensures forall k :: 0 <= k < |wev + fev| ==> !IsPush((wev + fev)[k]) && !IsLaunch((wev + fev)[k])
    ensures r.Some? ==> |wev + fev| >= 1 && (wev + fev)[|wev + fev| - 1] == Wrote(LocalStatsFile(modelName), r.value) &&
                        AnalyticsKey in r.value
  {
    ObservedConcat(w, n, wev, fev);
    assert forall k :: |wev| <= k < |wev + fev| ==> (wev + fev)[k] == fev[k - |wev|];
    if r.Some? {
      FetchedWritten(w, n + |wev|, modelName, r, fev);
    }
  }

  // ---------------------------------------------------------------------
  // Bringing up an emulator
  // ---------------------------------------------------------------------

  /** `res.stdout.strip() == "1"` for `getprop sys.boot_completed`; the exit status is not looked at. */
  predicate Booted(r: Reply) {
    r.Exited? && Strip(r.stdout) == "1"
  }

  /**
    The two polling loops of `ensure_emulator_running` from interaction `k`,
    with `left` rounds to go: run `cmd`; stop when `done` holds of its reply,
    otherwise sleep five seconds and go round again.  A command that fails to
    launch counts as a miss.
  */
  function Poll(w: World, k: nat, left: nat, cmd: Command, done: Reply -> bool): (bool, seq<Event>)
    decreases left
  {
    if left == 0 then (false, [])
    else
      var r := w.reply(k, cmd);
      if done(r) then (true, [Ran(cmd, r)])
      else
        var rest := Poll(w, k + 2, left - 1, cmd, done);
        (rest.0, [Ran(cmd, r), Slept(EmulatorDelayMs)] + rest.1)
  }

  /** Every event runs `cmd` or is the five-second sleep. */
  predicate PollEvents(ev: seq<Event>, cmd: Command) {
    forall i :: 0 <= i < |ev| ==> (ev[i].Ran? && ev[i].cmd == cmd) || ev[i] == Slept(EmulatorDelayMs)
  }

  /** A polling loop's events are the world's answers and run nothing but `cmd`. */
  lemma {:induction false} PollObserved(w: World, k: nat, left: nat, cmd: Command, done: Reply -> bool)
    ensures Observed(w, k, Poll(w, k, left, cmd, done).1)
    decreases left
  {
    if left > 0 && !done(w.reply(k, cmd)) {
      var head := [Ran(cmd, w.reply(k, cmd)), Slept(EmulatorDelayMs)];
      PollObserved(w, k + 2, left - 1, cmd, done);
      assert Observed(w, k, head);
      ObservedConcat(w, k, head, Poll(w, k + 2, left - 1, cmd, done).1);
    }
  }

  /** A polling loop runs nothing but `cmd`, and sleeps. */
  lemma {:induction false} PollKinds(w: World, k: nat, left: nat, cmd: Command, done: Reply -> bool)
    ensures PollEvents(Poll(w, k, left, cmd, done).1, cmd)
    decreases left
  {
    if left > 0 && !done(w.reply(k, cmd)) {
      var head := [Ran(cmd, w.reply(k, cmd)), Slept(EmulatorDelayMs)];
      var rest := Poll(w, k + 2, left - 1, cmd, done).1;
      PollKinds(w, k + 2, left - 1, cmd, done);
      assert forall i :: 2 <= i < |head + rest| ==> (head + rest)[i] == rest[i - 2];
    }
  }

  /** A polling loop runs `cmd` at most `left` times, and all `left` times when it gives up. */
  lemma {:induction false} PollCount(w: World, k: nat, left: nat, cmd: Command, done: Reply -> bool)
    ensures CountRuns(Poll(w, k, left, cmd, done).1, cmd) <= left
    ensures !Poll(w, k, left, cmd, done).0 ==> CountRuns(Poll(w, k, left, cmd, done).1, cmd) == left
    decreases left
  {
    if left > 0 {
      var head := [Ran(cmd, w.reply(k, cmd))];
      CountRunsOne(Ran(cmd, w.reply(k, cmd)), cmd);
      if !done(w.reply(k, cmd)) {
        PollCount(w, k + 2, left - 1, cmd, done);
        CountRunsSnoc(head, Slept(EmulatorDelayMs), cmd);
        assert head + [Slept(EmulatorDelayMs)] == [Ran(cmd, w.reply(k, cmd)), Slept(EmulatorDelayMs)];
        CountRunsConcat(head + [Slept(EmulatorDelayMs)], Poll(w, k + 2, left - 1, cmd, done).1, cmd);
      }
    }
  }

  /** When a polling loop gives up, no reply it saw passed `done`. */
  lemma {:induction false} PollGaveUp(w: World, k: nat, left: nat, cmd: Command, done: Reply -> bool)
    ensures var (found, ev) := Poll(w, k, left, cmd, done);
            !found ==> forall i :: 0 <= i < |ev| && ev[i].Ran? ==> !done(ev[i].reply)
    decreases left
  {
    var r := w.reply(k, cmd);
    if left > 0 && !done(r) {
      var rest := Poll(w, k + 2, left - 1, cmd, done);
      var ev := [Ran(cmd, r), Slept(EmulatorDelayMs)] + rest.1;
      assert Poll(w, k, left, cmd, done) == (rest.0, ev);
      PollGaveUp(w, k + 2, left - 1, cmd, done);
      if !rest.0 {
        forall i | 0 <= i < |ev| && ev[i].Ran?
          ensures !done(ev[i].reply)
        {
          if i >= 2 {
            assert ev[i] == rest.1[i - 2];
          } else {
            assert ev[i] == [Ran(cmd, r), Slept(EmulatorDelayMs)][i];
          }
        }
      }
    }
  }

  /** A polling trace runs no command other than its own. */
  lemma {:induction false} PollCountsOnlyItsOwn(ev: seq<Event>, cmd: Command, other: Command)
    requires PollEvents(ev, cmd) && other != cmd
    ensures CountRuns(ev, other) == 0
    decreases |ev|
  {
    if ev != [] {
      assert PollEvents(ev[..|ev| - 1], cmd) by {
        assert forall i :: 0 <= i < |ev| - 1 ==> ev[..|ev| - 1][i] == ev[i];
      }
      PollCountsOnlyItsOwn(ev[..|ev| - 1], cmd, other);
    }
  }

  /** The connection loop: `is_emulator_running` up to `rounds` times (36 in the source), with a sleep after each miss. */
  method AwaitConnect(w: World, k0: nat, rounds: nat) returns (running: bool, ev: seq<Event>)
    ensures (running, ev) == Poll(w, k0, rounds, DevicesCmd, EmulatorListed)
  {
    ghost var goal := Poll(w, k0, rounds, DevicesCmd, EmulatorListed);
    ev := [];
    var k := k0;
    var left := rounds;
    while left > 0
      invariant Poll(w, k, left, DevicesCmd, EmulatorListed).0 == goal.0
      invariant ev + Poll(w, k, left, DevicesCmd, EmulatorListed).1 == goal.1
    {
      var found, check := IsEmulatorRunning(w, k);
      if found {
        assert Poll(w, k, left, DevicesCmd, EmulatorListed) == (true, check);
        return true, ev + check;
      }
      ghost var before := ev;
      ev := ev + check + [Slept(EmulatorDelayMs)];
      assert ev + Poll(w, k + 2, left - 1, DevicesCmd, EmulatorListed).1 == before + Poll(w, k, left, DevicesCmd, EmulatorListed).1;
      k, left := k + 2, left - 1;
    }
    assert Poll(w, k, 0, DevicesCmd, EmulatorListed) == (false, []);
    assert ev + [] == ev;
    running := false;
  }

  /** The boot loop: `getprop sys.boot_completed` up to `rounds` times (24 in the source), with a sleep after each miss. */
  method AwaitBoot(w: World, k0: nat, rounds: nat) returns (booted: bool, ev: seq<Event>)
    ensures (booted, ev) == Poll(w, k0, rounds, BootQueryCmd, Booted)
  {
    ghost var goal := Poll(w, k0, rounds, BootQueryCmd, Booted);
    ev := [];
    var k := k0;
    var left := rounds;
    while left > 0
      invariant Poll(w, k, left, BootQueryCmd, Booted).0 == goal.0
      invariant ev + Poll(w, k, left, BootQueryCmd, Booted).1 == goal.1
    {
      var res := w.reply(k, BootQueryCmd);
      if res.Exited? && Strip(res.stdout) == "1" {
        assert Poll(w, k, left, BootQueryCmd, Booted) == (true, [Ran(BootQueryCmd, res)]);
        return true, ev + [Ran(BootQueryCmd, res)];
      }
      ghost var before := ev;
      ev := ev + [Ran(BootQueryCmd, res), Slept(EmulatorDelayMs)];
      assert ev + Poll(w, k + 2, left - 1, BootQueryCmd, Booted).1 == before + Poll(w, k, left, BootQueryCmd, Booted).1;
      k, left := k + 2, left - 1;
    }
    assert Poll(w, k, 0, BootQueryCmd, Booted) == (false, []);
    assert ev + [] == ev;
    booted := false;
  }

  /**
    How the host reads the replies that choose a device: whether an
    `adb devices` reply lists a ready device, whether it lists a running
    emulator, whether a boot query reply says the boot completed, and which
    AVDs an `emulator -list-avds` reply names.
  */
  datatype Readers = Readers(ready: Reply -> bool, listed: Reply -> bool, booted: Reply -> bool, avds: Reply -> seq<string>)

  /** The readers of the source. */
  const SourceReaders := Readers(DeviceListed, EmulatorListed, Booted, AvdList)

  /**
    `ensure_emulator_running` once it has picked `avd`, from interaction `k`:
    the emulator is started in the background, its connection awaited and
    checked once more, and its boot awaited.  A failure to start it ends the
    attempt.  `listed` and `booted` are the tests the two loops apply to a
    reply (`EmulatorListed` and `Booted` in the source); the lemmas below
    hold whatever the tests are.
  */
  function LaunchOutcome(w: World, k: nat, avd: string, connectRounds: nat, bootRounds: nat,
                         listed: Reply -> bool, booted: Reply -> bool): (bool, seq<Event>) {
    var spawn := w.reply(k, StartAvdCmd(avd));
    var started := [Spawned(StartAvdCmd(avd), spawn)];
    if !spawn.Exited? then (false, started)
    else
      var conn := Poll(w, k + 1, connectRounds, DevicesCmd, listed).1;
      var m := k + 1 + |conn|;
      var recheck := w.reply(m, DevicesCmd);
      var connected := started + conn + [Ran(DevicesCmd, recheck)];
      if !listed(recheck) then (false, connected)
      else
        var boot := Poll(w, m + 1, bootRounds, BootQueryCmd, booted);
        (boot.0, connected + boot.1)
  }

  /**
    The whole of `ensure_emulator_running` from interaction `n`: an emulator
    already listed is enough; otherwise, unless no AVD is listed, the first
    AVD listed is launched.
  */
  function EmulatorOutcome(w: World, n: nat, connectRounds: nat, bootRounds: nat,
                           t: Readers): (bool, seq<Event>) {
    var first := w.reply(n, DevicesCmd);
    if t.listed(first) then (true, [Ran(DevicesCmd, first)])
    else
      var listing := w.reply(n + 1, ListAvdsCmd);
      var avds := t.avds(listing);
      var pre := [Ran(DevicesCmd, first), Ran(ListAvdsCmd, listing)];
      if avds == [] then (false, pre)
      else
        var launch := LaunchOutcome(w, n + 2, avds[0], connectRounds, bootRounds, t.listed, t.booted);
        (launch.0, pre + launch.1)
  }

  /** The part of `ensure_emulator_running` that starts `avd` and waits for it. */
  method LaunchAvd(w: World, k: nat, avd: string, connectRounds: nat, bootRounds: nat) returns (ok: bool, ev: seq<Event>)
    ensures (ok, ev) == LaunchOutcome(w, k, avd, connectRounds, bootRounds, EmulatorListed, Booted)
  {
    ghost var goal := LaunchOutcome(w, k, avd, connectRounds, bootRounds, EmulatorListed, Booted);
    var spawn := w.reply(k, StartAvdCmd(avd));
    ev := [Spawned(StartAvdCmd(avd), spawn)];
    if !spawn.Exited? {
      assert goal == (false, ev);
      return false, ev;
    }
    var _, conn := AwaitConnect(w, k + 1, connectRounds);
    ev := ev + conn;
    var m := k + 1 + |conn|;
    var connected, recheck := IsEmulatorRunning(w, m);
    ev := ev + recheck;
    assert ev == [Spawned(StartAvdCmd(avd), spawn)] + Poll(w, k + 1, connectRounds, DevicesCmd, EmulatorListed).1 + [Ran(DevicesCmd, w.reply(m, DevicesCmd))];
    if !connected {
      assert goal == (false, ev);
      return false, ev;
    }
    var booted, boot := AwaitBoot(w, m + 1, bootRounds);
    ev := ev + boot;
    ok := booted;
    assert goal == (ok, ev);
  }

  /** `ensure_emulator_running`; the `Emulator` lemmas below say what its outcome means. */
  method EnsureEmulatorRunning(w: World, n: nat) returns (ok: bool, ev: seq<Event>)
    ensures (ok, ev) == EmulatorOutcome(w, n, ConnectPolls, BootPolls, SourceReaders)
  {
    var running, check := IsEmulatorRunning(w, n);
    ev := check;
    if running {
      return true, ev;
    }
    var availableAvds, listing := GetAvailableAvds(w, n + 1);
    ev := ev + listing;
    assert ev == [Ran(DevicesCmd, w.reply(n, DevicesCmd)), Ran(ListAvdsCmd, w.reply(n + 1, ListAvdsCmd))];
    if availableAvds == [] {
      return false, ev;
    }
    var targetAvd := availableAvds[0];
    var launched, launch := LaunchAvd(w, n + 2, targetAvd, ConnectPolls, BootPolls);
    ev := ev + launch;
    ok := launched;
  }

  /** The polling loops of the emulator start-up transfer nothing and start nothing. */
  lemma PollQuiet(w: World, k: nat, left: nat, cmd: Command, done: Reply -> bool)
    requires cmd == DevicesCmd || cmd == BootQueryCmd
    ensures NoTransfer(Poll(w, k, left, cmd, done).1) && NoSpawn(Poll(w, k, left, cmd, done).1)
  {
    var ev := Poll(w, k, left, cmd, done).1;
    PollKinds(w, k, left, cmd, done);
    assert BootQueryCmd.args[1] == "getprop";
    forall i | 0 <= i < |ev| ensures !IsPush(ev[i]) && !IsLaunch(ev[i]) && !IsPull(ev[i]) {
      if ev[i].Ran? && cmd == BootQueryCmd {
        assert ev[i].cmd.args[..3] != ["shell", "am", "start"] by {
          assert ev[i].cmd.args[..3][1] == "getprop";
        }
      }
    }
  }

  /** How often a polling loop runs `cmd`, and that it runs no `other` command. */
  lemma PollCounts(w: World, k: nat, left: nat, cmd: Command, done: Reply -> bool, other: Command)
    requires other != cmd
    ensures CountRuns(Poll(w, k, left, cmd, done).1, cmd) <= left
    ensures CountRuns(Poll(w, k, left, cmd, done).1, other) == 0
  {
    PollCount(w, k, left, cmd, done);
    PollKinds(w, k, left, cmd, done);
    PollCountsOnlyItsOwn(Poll(w, k, left, cmd, done).1, cmd, other);
  }

  /**
    The last event of a polling loop decides its outcome: it succeeds exactly
    when that event runs `cmd` and its reply passes `done`; when it gives up,
    it ran no round at all or its last event is the sleep.
  */
  lemma {:induction false} PollLast(w: World, k: nat, left: nat, cmd: Command, done: Reply -> bool)
    ensures var (found, ev) := Poll(w, k, left, cmd, done);
            found <==> |ev| > 0 && ev[|ev| - 1].Ran? && ev[|ev| - 1].cmd == cmd && done(ev[|ev| - 1].reply)
    ensures var (found, ev) := Poll(w, k, left, cmd, done);
            !found ==> ev == [] || ev[|ev| - 1] == Slept(EmulatorDelayMs)
    decreases left
  {
    if left > 0 && !done(w.reply(k, cmd)) {
      var head := [Ran(cmd, w.reply(k, cmd)), Slept(EmulatorDelayMs)];
      var rest := Poll(w, k + 2, left - 1, cmd, done).1;
      PollLast(w, k + 2, left - 1, cmd, done);
      if rest != [] {
        assert (head + rest)[|head + rest| - 1] == rest[|rest| - 1];
      }
    }
  }

  /** Launching an AVD: the events are the world's answers. */
  lemma LaunchObserved(w: World, k: nat, avd: string, connectRounds: nat, bootRounds: nat,
                       listed: Reply -> bool, booted: Reply -> bool)
    ensures Observed(w, k, LaunchOutcome(w, k, avd, connectRounds, bootRounds, listed, booted).1)
  {
    var ev := LaunchOutcome(w, k, avd, connectRounds, bootRounds, listed, booted).1;
    var spawn := w.reply(k, StartAvdCmd(avd));
    var started := [Spawned(StartAvdCmd(avd), spawn)];
    assert Observed(w, k, started);
    if spawn.Exited? {
      var conn := Poll(w, k + 1, connectRounds, DevicesCmd, listed).1;
      var m := k + 1 + |conn|;
      var last := [Ran(DevicesCmd, w.reply(m, DevicesCmd))];
      assert Observed(w, m, last);
      PollObserved(w, k + 1, connectRounds, DevicesCmd, listed);
      ObservedConcat(w, k, started, conn);
      ObservedConcat(w, k, started + conn, last);
      if listed(w.reply(m, DevicesCmd)) {
        var boot := Poll(w, m + 1, bootRounds, BootQueryCmd, booted).1;
        PollObserved(w, m + 1, bootRounds, BootQueryCmd, booted);
        ObservedConcat(w, k, started + conn + last, boot);
        assert ev == started + conn + last + boot;
      } else {
        assert ev == started + conn + last;
      }
    }
  }

  /** Launching an AVD transfers nothing, and the only process it starts is the emulator for `avd`, first. */
  lemma LaunchQuiet(w: World, k: nat, avd: string, connectRounds: nat, bootRounds: nat,
                    listed: Reply -> bool, booted: Reply -> bool)
    ensures var ev := LaunchOutcome(w, k, avd, connectRounds, bootRounds, listed, booted).1;
            NoTransfer(ev) && ev[0] == w.Spawn(k, StartAvdCmd(avd)) && NoSpawn(ev[1..])
  {
    var ev := LaunchOutcome(w, k, avd, connectRounds, bootRounds, listed, booted).1;
    var spawn := w.reply(k, StartAvdCmd(avd));
    var started := [Spawned(StartAvdCmd(avd), spawn)];
    assert NoTransfer(started);
    if spawn.Exited? {
      var conn := Poll(w, k + 1, connectRounds, DevicesCmd, listed).1;
      var m := k + 1 + |conn|;
      var last := [Ran(DevicesCmd, w.reply(m, DevicesCmd))];
      assert NoTransfer(last) && NoSpawn(last);
      PollQuiet(w, k + 1, connectRounds, DevicesCmd, listed);
      NoTransferConcat(started, conn);
      NoTransferConcat(started + conn, last);
      NoSpawnConcat(conn, last);
      if listed(w.reply(m, DevicesCmd)) {
        var boot := Poll(w, m + 1, bootRounds, BootQueryCmd, booted).1;
        PollQuiet(w, m + 1, bootRounds, BootQueryCmd, booted);
        NoTransferConcat(started + conn + last, boot);
        NoSpawnConcat(conn + last, boot);
        assert ev == started + conn + last + boot;
        assert ev[1..] == conn + last + boot;
      } else {
        assert ev == started + conn + last;
        assert ev[1..] == conn + last;
      }
    }
  }

  /** Launching an AVD runs `adb devices` at most `connectRounds + 1` times. */
  lemma LaunchDevicesRuns(w: World, k: nat, avd: string, connectRounds: nat, bootRounds: nat,
                          listed: Reply -> bool, booted: Reply -> bool)
    ensures CountRuns(LaunchOutcome(w, k, avd, connectRounds, bootRounds, listed, booted).1, DevicesCmd) <= connectRounds + 1
  {
    var ev := LaunchOutcome(w, k, avd, connectRounds, bootRounds, listed, booted).1;
    var spawn := w.reply(k, StartAvdCmd(avd));
    var c := Spawned(StartAvdCmd(avd), spawn);
    CountRunsOne(c, DevicesCmd);
    if spawn.Exited? {
      var conn := Poll(w, k + 1, connectRounds, DevicesCmd, listed).1;
      var m := k + 1 + |conn|;
      var d := Ran(DevicesCmd, w.reply(m, DevicesCmd));
      var connected := [c] + conn + [d];
      PollCount(w, k + 1, connectRounds, DevicesCmd, listed);
      CountRunsConcat([c], conn, DevicesCmd);
      CountRunsSnoc([c] + conn, d, DevicesCmd);
      if listed(w.reply(m, DevicesCmd)) {
        var boot := Poll(w, m + 1, bootRounds, BootQueryCmd, booted).1;
        PollCounts(w, m + 1, bootRounds, BootQueryCmd, booted, DevicesCmd);
        assert ev == connected + boot;
        CountRunsConcat(connected, boot, DevicesCmd);
      } else {
        assert ev == connected;
      }
    }
  }

  /** Launching an AVD runs the boot query at most `bootRounds` times. */
  lemma LaunchBootQueries(w: World, k: nat, avd: string, connectRounds: nat, bootRounds: nat,
                          listed: Reply -> bool, booted: Reply -> bool)
    ensures CountRuns(LaunchOutcome(w, k, avd, connectRounds, bootRounds, listed, booted).1, BootQueryCmd) <= bootRounds
  {
    var ev := LaunchOutcome(w, k, avd, connectRounds, bootRounds, listed, booted).1;
    var spawn := w.reply(k, StartAvdCmd(avd));
    var c := Spawned(StartAvdCmd(avd), spawn);
    CountRunsOne(c, BootQueryCmd);
    if spawn.Exited? {
      var conn := Poll(w, k + 1, connectRounds, DevicesCmd, listed).1;
      var m := k + 1 + |conn|;
      var d := Ran(DevicesCmd, w.reply(m, DevicesCmd));
      var connected := [c] + conn + [d];
      PollCounts(w, k + 1, connectRounds, DevicesCmd, listed, BootQueryCmd);
      CountRunsConcat([c], conn, BootQueryCmd);
      CountRunsSnoc([c] + conn, d, BootQueryCmd);
      if listed(w.reply(m, DevicesCmd)) {
        var boot := Poll(w, m + 1, bootRounds, BootQueryCmd, booted).1;
        PollCount(w, m + 1, bootRounds, BootQueryCmd, booted);
        assert ev == connected + boot;
        CountRunsConcat(connected, boot, BootQueryCmd);
      } else {
        assert ev == connected;
      }
    }
  }

  /**
    Launching an AVD succeeds exactly when its last event is a boot query
    whose reply passes `booted`, and only after an `adb devices` reply has
    passed `listed`.
  */
  lemma LaunchReady(w: World, k: nat, avd: string, connectRounds: nat, bootRounds: nat,
                    listed: Reply -> bool, booted: Reply -> bool)
    ensures var (ok, ev) := LaunchOutcome(w, k, avd, connectRounds, bootRounds, listed, booted);
            ok <==> |ev| > 0 && ev[|ev| - 1].Ran? && ev[|ev| - 1].cmd == BootQueryCmd && booted(ev[|ev| - 1].reply)
    ensures var (ok, ev) := LaunchOutcome(w, k, avd, connectRounds, bootRounds, listed, booted);
            ok ==> exists i :: 0 <= i < |ev| && ev[i].Ran? && ev[i].cmd == DevicesCmd && listed(ev[i].reply)
  {
    var spawn := w.reply(k, StartAvdCmd(avd));
    var ev := LaunchOutcome(w, k, avd, connectRounds, bootRounds, listed, booted).1;
    if spawn.Exited? {
      var conn := Poll(w, k + 1, connectRounds, DevicesCmd, listed).1;
      var m := k + 1 + |conn|;
      var connected := [Spawned(StartAvdCmd(avd), spawn)] + conn + [Ran(DevicesCmd, w.reply(m, DevicesCmd))];
      if listed(w.reply(m, DevicesCmd)) {
        var boot := Poll(w, m + 1, bootRounds, BootQueryCmd, booted);
        PollLast(w, m + 1, bootRounds, BootQueryCmd, booted);
        assert ev == connected + boot.1;
        assert ev[|connected| - 1] == Ran(DevicesCmd, w.reply(m, DevicesCmd));
        if boot.1 != [] {
          assert ev[|ev| - 1] == boot.1[|boot.1| - 1];
        } else {
          assert ev[|ev| - 1] == Ran(DevicesCmd, w.reply(m, DevicesCmd));
        }
      } else {
        assert ev == connected;
        assert ev[|ev| - 1] == Ran(DevicesCmd, w.reply(m, DevicesCmd));
      }
    } else {
      assert ev == [Spawned(StartAvdCmd(avd), spawn)];
    }
  }

  /** The events of `ensure_emulator_running` are the world's answers; it pushes, launches and pulls nothing. */
  lemma EmulatorObserved(w: World, n: nat, connectRounds: nat, bootRounds: nat, t: Readers)
    ensures Observed(w, n, EmulatorOutcome(w, n, connectRounds, bootRounds, t).1)
    ensures NoTransfer(EmulatorOutcome(w, n, connectRounds, bootRounds, t).1)
  {
    var first := w.reply(n, DevicesCmd);
    var listing := w.reply(n + 1, ListAvdsCmd);
    var avds := t.avds(listing);
    var pre := [Ran(DevicesCmd, first), Ran(ListAvdsCmd, listing)];
    assert Observed(w, n, pre) && NoTransfer(pre);
    if !t.listed(first) && avds != [] {
      var launch := LaunchOutcome(w, n + 2, avds[0], connectRounds, bootRounds, t.listed, t.booted).1;
      LaunchObserved(w, n + 2, avds[0], connectRounds, bootRounds, t.listed, t.booted);
      LaunchQuiet(w, n + 2, avds[0], connectRounds, bootRounds, t.listed, t.booted);
      ObservedConcat(w, n, pre, launch);
      NoTransferConcat(pre, launch);
    }
  }

  /**
    At most one emulator is started, as the third interaction, and it is the
    first AVD the listing named.  `adb devices` runs at most
    `connectRounds + 2` times (once before, up to `connectRounds` times while
    connecting, once after), and the boot query at most `bootRounds` times.
  */
  lemma EmulatorBounded(w: World, n: nat, connectRounds: nat, bootRounds: nat, t: Readers)
    ensures var ev := EmulatorOutcome(w, n, connectRounds, bootRounds, t).1;
            forall i :: 0 <= i < |ev| && ev[i].Spawned? ==>
              i == 2 && t.avds(w.reply(n + 1, ListAvdsCmd)) != [] &&
              ev[i].cmd == StartAvdCmd(t.avds(w.reply(n + 1, ListAvdsCmd))[0])
    ensures CountRuns(EmulatorOutcome(w, n, connectRounds, bootRounds, t).1, DevicesCmd) <= connectRounds + 2
    ensures CountRuns(EmulatorOutcome(w, n, connectRounds, bootRounds, t).1, BootQueryCmd) <= bootRounds
  {
    var ev := EmulatorOutcome(w, n, connectRounds, bootRounds, t).1;
    var first := w.reply(n, DevicesCmd);
    var listing := w.reply(n + 1, ListAvdsCmd);
    var avds := t.avds(listing);
    var a, b := Ran(DevicesCmd, first), Ran(ListAvdsCmd, listing);
    CountRunsOne(a, DevicesCmd);
    CountRunsOne(a, BootQueryCmd);
    CountRunsSnoc([a], b, DevicesCmd);
    CountRunsSnoc([a], b, BootQueryCmd);
    assert [a] + [b] == [a, b];
    if !t.listed(first) && avds != [] {
      var launch := LaunchOutcome(w, n + 2, avds[0], connectRounds, bootRounds, t.listed, t.booted).1;
      LaunchQuiet(w, n + 2, avds[0], connectRounds, bootRounds, t.listed, t.booted);
      LaunchDevicesRuns(w, n + 2, avds[0], connectRounds, bootRounds, t.listed, t.booted);
      LaunchBootQueries(w, n + 2, avds[0], connectRounds, bootRounds, t.listed, t.booted);
      CountRunsConcat([a, b], launch, DevicesCmd);
      CountRunsConcat([a, b], launch, BootQueryCmd);
      assert ev == [a, b] + launch;
      forall i | 0 <= i < |ev| && ev[i].Spawned? ensures i == 2 && ev[i].cmd == StartAvdCmd(avds[0]) {
        assert ev[i] == launch[i - 2];
      }
    }
  }

  /**
    `ensure_emulator_running` returns true exactly when the first `adb devices`
    reply already passed `listed`, or when the last thing it did was a boot
    query whose reply passed `booted`.
  */
  lemma EmulatorReady(w: World, n: nat, connectRounds: nat, bootRounds: nat, t: Readers)
    ensures var (ok, ev) := EmulatorOutcome(w, n, connectRounds, bootRounds, t);
            ok <==> (ev == [w.Run(n, DevicesCmd)] && t.listed(w.reply(n, DevicesCmd))) ||
                    (|ev| > 0 && ev[|ev| - 1].Ran? && ev[|ev| - 1].cmd == BootQueryCmd && t.booted(ev[|ev| - 1].reply))
  {
    var first := w.reply(n, DevicesCmd);
    var listing := w.reply(n + 1, ListAvdsCmd);
    var avds := t.avds(listing);
    var ev := EmulatorOutcome(w, n, connectRounds, bootRounds, t).1;
    if !t.listed(first) {
      var pre := [Ran(DevicesCmd, first), Ran(ListAvdsCmd, listing)];
      if avds != [] {
        var launch := LaunchOutcome(w, n + 2, avds[0], connectRounds, bootRounds, t.listed, t.booted).1;
        LaunchReady(w, n + 2, avds[0], connectRounds, bootRounds, t.listed, t.booted);
        assert ev == pre + launch;
        assert launch[0].Spawned?;
        assert ev[|ev| - 1] == launch[|launch| - 1];
      } else {
        assert ev == pre;
      }
    }
  }

  /** `ensure_emulator_running` never returns true without an `adb devices` reply that passed `listed`. */
  lemma EmulatorSeen(w: World, n: nat, connectRounds: nat, bootRounds: nat, t: Readers)
    ensures var (ok, ev) := EmulatorOutcome(w, n, connectRounds, bootRounds, t);
            ok ==> exists i :: 0 <= i < |ev| && ev[i].Ran? && ev[i].cmd == DevicesCmd && t.listed(ev[i].reply)
  {
    var first := w.reply(n, DevicesCmd);
    var listing := w.reply(n + 1, ListAvdsCmd);
    var avds := t.avds(listing);
    var (ok, ev) := EmulatorOutcome(w, n, connectRounds, bootRounds, t);
    if t.listed(first) {
      assert ev[0] == Ran(DevicesCmd, first);
    } else if avds != [] {
      var launch := LaunchOutcome(w, n + 2, avds[0], connectRounds, bootRounds, t.listed, t.booted);
      LaunchReady(w, n + 2, avds[0], connectRounds, bootRounds, t.listed, t.booted);
      if launch.0 {
        var i :| 0 <= i < |launch.1| && launch.1[i].Ran? && launch.1[i].cmd == DevicesCmd && t.listed(launch.1[i].reply);
        assert ev[i + 2] == launch.1[i];
      }
    }
  }

  // ---------------------------------------------------------------------
  // The whole session
  // ---------------------------------------------------------------------

  /**
    The first step of `process_model` from interaction `n`: a physical device
    is looked for first, and only when none is found is an emulator brought
    up.  An exception from the device check (other than a missing adb)
    escapes.
  */
  function DeviceOutcome(w: World, n: nat, connectRounds: nat, bootRounds: nat, t: Readers): (Py<bool>, seq<Event>) {
    var first := w.reply(n, DevicesCmd);
    if first.OsFault? then (Raised, [Ran(DevicesCmd, first)])
    else if t.ready(first) then (Returned(true), [Ran(DevicesCmd, first)])
    else
      var emulator := EmulatorOutcome(w, n + 1, connectRounds, bootRounds, t);
      (Returned(emulator.0), [Ran(DevicesCmd, first)] + emulator.1)
  }

  /**
    The device step of `process_model`; besides its outcome, the facts of
    `DeviceObserved` and `DeviceFound` about it.
  */
  method FindDevice(w: World, n: nat) returns (found: Py<bool>, ev: seq<Event>)
    ensures (found, ev) == DeviceOutcome(w, n, ConnectPolls, BootPolls, SourceReaders)
    ensures Observed(w, n, ev) && NoTransfer(ev)
    ensures found.Raised? <==> w.reply(n, DevicesCmd).OsFault?
    ensures found == Returned(true) ==> exists i :: 0 <= i < |ev| && SourceDeviceSeen(ev[i])
  {
    DeviceObserved(w, n, ConnectPolls, BootPolls, SourceReaders);
    DeviceFound(w, n, ConnectPolls, BootPolls, SourceReaders);
    var connected, check := CheckAdbConnection(w, n);
    ev := check;
    if connected.Raised? {
      return Raised, ev;
    }
    if connected.value {
      return Returned(true), ev;
    }
    var running, emulator := EnsureEmulatorRunning(w, n + 1);
    ev := ev + emulator;
    found := Returned(running);
  }

  /** The device step's events are the world's answers and transfer nothing. */
  lemma DeviceObserved(w: World, n: nat, connectRounds: nat, bootRounds: nat, t: Readers)
    ensures Observed(w, n, DeviceOutcome(w, n, connectRounds, bootRounds, t).1)
    ensures NoTransfer(DeviceOutcome(w, n, connectRounds, bootRounds, t).1)
  {
    var first := [Ran(DevicesCmd, w.reply(n, DevicesCmd))];
    assert Observed(w, n, first) && NoTransfer(first);
    if !w.reply(n, DevicesCmd).OsFault? && !t.ready(w.reply(n, DevicesCmd)) {
      var emulator := EmulatorOutcome(w, n + 1, connectRounds, bootRounds, t).1;
      EmulatorObserved(w, n + 1, connectRounds, bootRounds, t);
      ObservedConcat(w, n, first, emulator);
      NoTransferConcat(first, emulator);
    }
  }

  /** A device counts as found only once some `adb devices` reply showed a ready device or a running emulator. */
  predicate DeviceSeen(e: Event, t: Readers) {
    e.Ran? && e.cmd == DevicesCmd && (t.ready(e.reply) || t.listed(e.reply))
  }

  /**
    The device step finds a device exactly when the first `adb devices`
    reply lists a ready device, or it does not, does not raise, and the
    emulator start-up succeeds; it never finds one without a reply that
    showed it.
  */
  lemma DeviceFound(w: World, n: nat, connectRounds: nat, bootRounds: nat, t: Readers)
    ensures var (found, ev) := DeviceOutcome(w, n, connectRounds, bootRounds, t);
            found == Returned(true) <==>
              !w.reply(n, DevicesCmd).OsFault? &&
              (t.ready(w.reply(n, DevicesCmd)) || EmulatorOutcome(w, n + 1, connectRounds, bootRounds, t).0)
    ensures var (found, ev) := DeviceOutcome(w, n, connectRounds, bootRounds, t);
            found == Returned(true) ==> exists i :: 0 <= i < |ev| && DeviceSeen(ev[i], t)
    ensures DeviceOutcome(w, n, connectRounds, bootRounds, t).0.Raised? <==> w.reply(n, DevicesCmd).OsFault?
  {
    var (found, ev) := DeviceOutcome(w, n, connectRounds, bootRounds, t);
    assert DeviceSeen(ev[0], t) <== t.ready(w.reply(n, DevicesCmd));
    if found == Returned(true) && !w.reply(n, DevicesCmd).OsFault? && !t.ready(w.reply(n, DevicesCmd)) {
      var emulator := EmulatorOutcome(w, n + 1, connectRounds, bootRounds, t).1;
      EmulatorSeen(w, n + 1, connectRounds, bootRounds, t);
      var i :| 0 <= i < |emulator| && emulator[i].Ran? && emulator[i].cmd == DevicesCmd && t.listed(emulator[i].reply);
      assert ev[i + 1] == emulator[i];
    }
  }

  /**
    How `process_model` ended; it returns nothing, so this says which of its
    branches it took.  `Mismatch` is only logged by the source.
  */
  datatype Session =
    | NoDevice                                               // neither a device nor an emulator: skipped
    | PushFailed
    | LaunchFailed
    | NoStats                                                // `pull_stats` gave None or an empty dictionary
    | Verified(stats: JsonObject)                            // the device reported the local hash
    | Mismatch(expected: string, got: Json, stats: JsonObject)

  /** `stats.get("model_hash", "")`. */
  function DeviceHash(stats: JsonObject): Json {
    if "model_hash" in stats then stats["model_hash"] else JStr("")
  }

  /** The hash `process_model` computes for the local model file. */
  function LocalHash(w: World, localPath: string): string
    requires w.localFile(localPath).Some?
  {
    w.sha256(w.localFile(localPath).value)
  }

  /** A reply of `adb devices` showed the source a device or an emulator. */
  predicate SourceDeviceSeen(e: Event) {
    DeviceSeen(e, SourceReaders)
  }

  /** A push that exited 0. */
  predicate PushedOk(e: Event) {
    IsPush(e) && Succeeded(e.reply)
  }

  /** A launch of the player that exited 0. */
  predicate LaunchedOk(e: Event) {
    IsLaunch(e) && Succeeded(e.reply)
  }

  /**
    The order of a delivery trace `ev` that ended in `s`: every launch starts
    the player with `modelName` and `modelHash` and follows a push that exited
    0, every pull follows a launch that exited 0, a failed push launches and
    pulls nothing and a failed launch pulls nothing.
  */
  predicate DeliverOrder(ev: seq<Event>, s: Session, modelName: string, modelHash: string) {
    (s == PushFailed ==> NoneOf(ev, IsLaunch) && NoneOf(ev, IsPull)) &&
    (s == LaunchFailed ==> NoneOf(ev, IsPull)) &&
    (forall k :: 0 <= k < |ev| && IsLaunch(ev[k]) ==> ev[k].cmd == LaunchCmd(modelName, modelHash)) &&
    Gated(ev, IsLaunch, PushedOk) && Gated(ev, IsPull, LaunchedOk)
  }

  /**
    What a launch stage `ev` that ended in `s` did: the launch is the second
    event and carries `modelName` and `modelHash`; the session ends in
    `LaunchFailed` exactly when that launch did not exit 0; nothing is
    pushed, and a pull only follows the launch that exited 0; stats that were
    got are the last thing written, to the local stats file, with the
    analytics in them, and were compared with `modelHash`.
  */
  predicate Collected(ev: seq<Event>, s: Session, modelName: string, modelHash: string) {
    |ev| >= 1 &&
    (s == LaunchFailed || s == NoStats || s.Verified? || s.Mismatch?) &&
    (s == LaunchFailed <==> !(|ev| >= 2 && LaunchedOk(ev[1]))) &&
    (forall k :: 0 <= k < |ev| ==> !IsPush(ev[k])) &&
    (forall k :: 0 <= k < |ev| && IsLaunch(ev[k]) ==> k == 1 && ev[k].cmd == LaunchCmd(modelName, modelHash)) &&
    (forall k :: 0 <= k < |ev| && IsPull(ev[k]) ==> 1 < k && LaunchedOk(ev[1])) &&
    (s.Verified? || s.Mismatch? ==>
       ev[|ev| - 1] == Wrote(LocalStatsFile(modelName), s.stats) && AnalyticsKey in s.stats) &&
    (s.Verified? ==> DeviceHash(s.stats) == JStr(modelHash)) &&
    (s.Mismatch? ==> s.expected == modelHash && s.got == DeviceHash(s.stats) && s.got != JStr(modelHash))
  }

  /**
    The launch and what follows it in `process_model`, from interaction `m`,
    once the model is on the device: the player is started with the model's
    name and `modelHash`; only if that exits 0 are the stats pulled, and only
    non-empty stats are checked against `modelHash`.
  */
  method Collect(w: World, m: nat, modelName: string, modelHash: string) returns (s: Session, ev: seq<Event>)
    requires w.Reaches(w.clock(m + 2) + DefaultTimeout * 1000)
    ensures Observed(w, m, ev)
    ensures |ev| >= 1 && ev[0] == w.Run(m, ForceStopCmd)
    ensures Collected(ev, s, modelName, modelHash)
  {
    var launched, launchEv := RunInferenceOnDevice(w, m, modelName, modelHash);
    ev := launchEv;
    s := LaunchFailed;
    if !launched {
      return;
    }
    var cev;
    s, cev := CheckStats(w, m + 2, modelName, modelHash);
    ObservedConcat(w, m, launchEv, cev);
    ev := launchEv + cev;
    assert forall k :: 2 <= k < |ev| ==> ev[k] == cev[k - 2];
    assert |cev| >= 1 ==> ev[|ev| - 1] == cev[|cev| - 1];
  }

  /**
    The part of `process_model` after a launch that exited 0, from
    interaction `m`: `pull_stats`, then a check of non-empty stats against
    `modelHash`.  The merged record is the last thing written.
  */
  method CheckStats(w: World, m: nat, modelName: string, modelHash: string) returns (s: Session, ev: seq<Event>)
    requires w.Reaches(w.clock(m) + DefaultTimeout * 1000)
    ensures Observed(w, m, ev)
    ensures s == NoStats || s.Verified? || s.Mismatch?
    ensures forall k :: 0 <= k < |ev| ==> !IsPush(ev[k]) && !IsLaunch(ev[k])
    ensures s.Verified? || s.Mismatch? ==>
              |ev| >= 1 && ev[|ev| - 1] == Wrote(LocalStatsFile(modelName), s.stats) && AnalyticsKey in s.stats
    ensures s.Verified? ==> DeviceHash(s.stats) == JStr(modelHash)
    ensures s.Mismatch? ==> s.expected == modelHash && s.got == DeviceHash(s.stats) && s.got != JStr(modelHash)
  {
    var stats;
    ghost var waited, waitEv, tail;
    stats, ev, waited, waitEv, tail := PullStats(w, m, modelName);
    s := NoStats;
    if stats.Some? && stats.value != map[] {
      var deviceHash := DeviceHash(stats.value);
      if deviceHash == JStr(modelHash) {
        s := Verified(stats.value);
      } else {
        s := Mismatch(modelHash, deviceHash, stats.value);
      }
    }
  }


  /**
    What `process_model` does once a device is available and the hash is
    known: push the model; only if that succeeds, `Collect`.
  */
  method Deliver(w: World, m: nat, localPath: string, modelName: string, modelHash: string) returns (s: Session, ev: seq<Event>)
    requires w.Reaches(w.clock(m + 4) + DefaultTimeout * 1000) && w.Reaches(w.clock(m + 5) + DefaultTimeout * 1000)
    ensures Observed(w, m, ev)
    ensures |ev| >= 1 && ev[0] == w.Run(m, MkdirCmd)
    ensures DeliverOrder(ev, s, modelName, modelHash)
    ensures DeliverResult(ev, s, modelName, modelHash)
  {
    var pushed, pev := PushModel(w, m, localPath, modelName);
    ev := pev;
    s := PushFailed;
    if !pushed {
      PushStopped(pev, modelName, modelHash);
      return;
    }
    var cev;
    s, cev := Collect(w, m + |pev|, modelName, modelHash);
    ObservedConcat(w, m, pev, cev);
    ev := pev + cev;
    DeliverTrace(pev, cev, ev, s, modelName, modelHash);
  }

  /**
    What a delivery trace `ev` that ended in `s` tells about `s`: a device
    was there; unless the push failed, the first push exited 0; stats that
    were got are the last thing written, to the local stats file, with the
    analytics in them, and were compared with `modelHash`.
  */
  predicate DeliverResult(ev: seq<Event>, s: Session, modelName: string, modelHash: string) {
    s != NoDevice &&
    (s != PushFailed ==> |ev| >= 2 && PushedOk(ev[1])) &&
    (s.Verified? || s.Mismatch? ==>
       |ev| >= 1 && ev[|ev| - 1] == Wrote(LocalStatsFile(modelName), s.stats) && AnalyticsKey in s.stats) &&
    (s.Verified? ==> DeviceHash(s.stats) == JStr(modelHash)) &&
    (s.Mismatch? ==> s.expected == modelHash && s.got == DeviceHash(s.stats) && s.got != JStr(modelHash))
  }

  /** A push stage that failed launches and pulls nothing. */
  lemma PushStopped(pev: seq<Event>, modelName: string, modelHash: string)
    requires forall k :: 0 <= k < |pev| ==> !IsLaunch(pev[k]) && !IsPull(pev[k])
    ensures DeliverOrder(pev, PushFailed, modelName, modelHash)
    ensures DeliverResult(pev, PushFailed, modelName, modelHash)
  {
  }

  /** A push stage `pev` whose first push exited 0, followed by a `Collect` stage `cev` that ended in `s`. */
  lemma DeliverTrace(pev: seq<Event>, cev: seq<Event>, ev: seq<Event>, s: Session, modelName: string, modelHash: string)
    requires |pev| >= 2 && PushedOk(pev[1])
    requires forall k :: 0 <= k < |pev| ==> !IsLaunch(pev[k]) && !IsPull(pev[k])
    requires Collected(cev, s, modelName, modelHash)
    requires ev == pev + cev
    ensures DeliverOrder(ev, s, modelName, modelHash)
    ensures DeliverResult(ev, s, modelName, modelHash)
    ensures |ev| >= 2 && ev[0] == pev[0]
  {
    assert forall k :: 0 <= k < |pev| ==> ev[k] == pev[k];
    assert forall k :: |pev| <= k < |ev| ==> ev[k] == cev[k - |pev|];
    forall k | 0 <= k < |ev| && IsPull(ev[k]) ensures exists j :: 0 <= j < k && LaunchedOk(ev[j]) {
      assert ev[|pev| + 1] == cev[1];
    }
    forall k | 0 <= k < |ev| && IsLaunch(ev[k]) ensures exists j :: 0 <= j < k && PushedOk(ev[j]) {
      assert k >= |pev|;
    }
  }

  /**
    `process_model` from interaction `n`: a device is needed before anything
    is hashed or transferred; the model is hashed (a file `open` cannot read raises),
    pushed, launched with its own hash, and its stats are pulled and checked
    against that hash, each step only when the one before it succeeded.
    `r` is Raised when an exception escapes, else the branch taken.
  */
  method ProcessModel(w: World, n: nat, localPath: string, modelName: string) returns (r: Py<Session>, ev: seq<Event>)
    requires w.ClockRuns()
    ensures Observed(w, n, ev)
    ensures DeviceOutcome(w, n, ConnectPolls, BootPolls, SourceReaders).1 <= ev
    ensures r.Raised? <==>
              w.reply(n, DevicesCmd).OsFault? ||
              (DeviceOutcome(w, n, ConnectPolls, BootPolls, SourceReaders).0 == Returned(true) && w.localFile(localPath).None?)
    ensures r == Returned(NoDevice) <==> DeviceOutcome(w, n, ConnectPolls, BootPolls, SourceReaders).0 == Returned(false)
    ensures SessionFacts(w, localPath, modelName, SourceDeviceSeen, r, ev)
  {
    var found, dev := FindDevice(w, n);
    r, ev := AfterDevice(w, n, found, dev, localPath, modelName, SourceDeviceSeen);
  }

  /**
    What `process_model` promises about any session `ev` with outcome `r`:
    the order of its transfers (`SessionOrder`) and the hash it works with
    (`SessionHash`).
  */
  ghost predicate SessionFacts(w: World, localPath: string, modelName: string, seen: Event -> bool,
                               r: Py<Session>, ev: seq<Event>) {
    SessionOrder(seen, r, ev) && SessionHash(w, localPath, modelName, r, ev)
  }

  /**
    Nothing is transferred when the session raises or finds no device; every
    push follows an event that showed a device (`seen`), every launch a push
    that exited 0, every pull a launch that exited 0; a failed push stops
    before the launch and a failed launch before the pull.
  */
  predicate SessionOrder(seen: Event -> bool, r: Py<Session>, ev: seq<Event>) {
    (r.Raised? || r == Returned(NoDevice) ==> NoTransfer(ev)) &&
    Gated(ev, IsPush, seen) &&
    Gated(ev, IsLaunch, PushedOk) &&
    Gated(ev, IsPull, LaunchedOk) &&
    (r == Returned(PushFailed) ==> NoneOf(ev, IsLaunch) && NoneOf(ev, IsPull)) &&
    (r == Returned(LaunchFailed) ==> NoneOf(ev, IsPull))
  }

  /**
    The player is only ever launched with the hash of the local file, and a
    session that got stats wrote them to the local stats file and compared
    them with that hash.
  */
  predicate SessionHash(w: World, localPath: string, modelName: string, r: Py<Session>, ev: seq<Event>) {
    SessionLaunches(w, localPath, modelName, ev) && SessionStats(w, localPath, modelName, r, ev)
  }

  /** Every launch of the player carries the hash of the local file. */
  predicate SessionLaunches(w: World, localPath: string, modelName: string, ev: seq<Event>) {
    forall k :: 0 <= k < |ev| && IsLaunch(ev[k]) ==>
      w.localFile(localPath).Some? && ev[k].cmd == LaunchCmd(modelName, LocalHash(w, localPath))
  }

  /** Stats that were got are the last thing written, to the local stats file, and were compared with the local file's hash. */
  predicate SessionStats(w: World, localPath: string, modelName: string, r: Py<Session>, ev: seq<Event>) {
    (r.Returned? && (r.value.Verified? || r.value.Mismatch?) ==>
       |ev| >= 1 && ev[|ev| - 1] == Wrote(LocalStatsFile(modelName), r.value.stats) && AnalyticsKey in r.value.stats) &&
    (r.Returned? && r.value.Verified? ==>
       w.localFile(localPath).Some? && DeviceHash(r.value.stats) == JStr(LocalHash(w, localPath))) &&
    (r.Returned? && r.value.Mismatch? ==>
       w.localFile(localPath).Some? && r.value.expected == LocalHash(w, localPath) &&
       r.value.got == DeviceHash(r.value.stats) && r.value.got != JStr(r.value.expected))
  }

  /**
    `process_model` after its device step, which gave `found` and the events
    `dev`, in which `seen` marks the events that showed a device: give up
    when that raised or found nothing, else hash the model and `Deliver` it.
  */
  method AfterDevice(w: World, n: nat, found: Py<bool>, dev: seq<Event>, localPath: string, modelName: string,
                     seen: Event -> bool)
      returns (r: Py<Session>, ev: seq<Event>)
    requires w.ClockRuns()
    requires Observed(w, n, dev) && NoTransfer(dev)
    requires found == Returned(true) ==> exists i :: 0 <= i < |dev| && seen(dev[i])
    ensures Observed(w, n, ev)
    ensures dev <= ev
    ensures r.Raised? <==> found.Raised? || (found == Returned(true) && w.localFile(localPath).None?)
    ensures r == Returned(NoDevice) <==> found == Returned(false)
    ensures SessionFacts(w, localPath, modelName, seen, r, ev)
  {
    ev := dev;
    if found.Raised? || !found.value {
      r := if found.Raised? then Raised else Returned(NoDevice);
      QuietSession(w, localPath, modelName, seen, r, dev);
      return;
    }
    var hash := ComputeFileHash(w, localPath);
    if hash.Raised? {
      r := Raised;
      QuietSession(w, localPath, modelName, seen, r, dev);
      return;
    }
    var j :| 0 <= j < |dev| && seen(dev[j]);
    var s, rest := Deliver(w, n + |dev|, localPath, modelName, hash.value);
    ObservedConcat(w, n, dev, rest);
    SessionTrace(dev, rest, j, s, seen, modelName, hash.value);
    SessionLaunchHashed(w, localPath, modelName, dev, rest, s);
    SessionStatsHashed(w, localPath, modelName, dev, rest, s);
    ev := dev + rest;
    r := Returned(s);
  }

  /** A session that raised or found no device, and transferred nothing, keeps every promise. */
  lemma QuietSession(w: World, localPath: string, modelName: string, seen: Event -> bool, r: Py<Session>, ev: seq<Event>)
    requires r.Raised? || r == Returned(NoDevice)
    requires NoTransfer(ev)
    ensures SessionFacts(w, localPath, modelName, seen, r, ev)
  {
  }

  /** Putting the device step `dev` in front of a `Deliver` stage `rest`. */
  lemma SessionTrace(dev: seq<Event>, rest: seq<Event>, j: nat, s: Session, seen: Event -> bool, modelName: string, modelHash: string)
    requires NoTransfer(dev) && j < |dev| && seen(dev[j])
    requires s != NoDevice
    requires DeliverOrder(rest, s, modelName, modelHash)
    ensures SessionOrder(seen, Returned(s), dev + rest)
  {
    var ev := dev + rest;
    assert forall k :: 0 <= k < |dev| ==> ev[k] == dev[k];
    assert forall k :: |dev| <= k < |ev| ==> ev[k] == rest[k - |dev|];
    GatedAfter(dev, rest, j, IsPush, seen);
    GatedBehind(dev, rest, IsLaunch, PushedOk);
    GatedBehind(dev, rest, IsPull, LaunchedOk);
  }

  /** The launches of a `Deliver` stage `rest`, run with the local file's hash, carry that hash behind the device step `dev`. */
  lemma SessionLaunchHashed(w: World, localPath: string, modelName: string, dev: seq<Event>, rest: seq<Event>, s: Session)
    requires NoTransfer(dev) && w.localFile(localPath).Some?
    requires DeliverOrder(rest, s, modelName, LocalHash(w, localPath))
    ensures SessionLaunches(w, localPath, modelName, dev + rest)
  {
    var ev := dev + rest;
    forall k | 0 <= k < |ev| && IsLaunch(ev[k])
      ensures ev[k].cmd == LaunchCmd(modelName, LocalHash(w, localPath))
    {
      assert k >= |dev|;
      assert ev[k] == rest[k - |dev|];
    }
  }

  /** The stats facts of a `Deliver` stage `rest`, run with the local file's hash, hold behind the device step `dev`. */
  lemma SessionStatsHashed(w: World, localPath: string, modelName: string, dev: seq<Event>, rest: seq<Event>, s: Session)
    requires w.localFile(localPath).Some?
    requires DeliverResult(rest, s, modelName, LocalHash(w, localPath))
    ensures SessionStats(w, localPath, modelName, Returned(s), dev + rest)
  {
    var ev := dev + rest;
    assert |rest| >= 1 ==> ev[|ev| - 1] == rest[|rest| - 1];
  }
}
