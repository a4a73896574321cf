# nn-vr: the host/device protocol for running one model on an Android/VR device

This project models, in Dafny, the part of nn-vr that gets one exported ONNX
model run on an Android or VR device and brings its timing record back. The
proofs cover three parts.

* **`VRProcessor`** (`vr_processor.py`) is the host orchestrator. It:
  - finds a device: a physical one, or else it starts the first configured
    emulator and waits for it to connect and boot;
  - hashes the model and pushes it (with its `nn.onnx.data` companion file
    when one exists);
  - launches the Unity player with the model's name and hash;
  - watches `logcat` for the `DONE <model>` marker;
  - pulls `<model>_stats.json`, merges host-collected device analytics into
    it, and compares the hash the device reports with the local one.

  Every external interaction (an `adb` or `emulator` command, a
  `Popen`, a clock reading, a `readline()`, a `json.load`, a sleep, a
  `terminate()`, a directory creation, a `json.dump`) is an `Event`. The
  answers to them come from a `World`: oracle functions indexed by the
  number of the interaction (`HostWorld`).

  Each method of the class becomes a Dafny method `M(w, n)`. It returns the
  source's result together with the events it caused, numbered from `n`.
  Its loops are proved against specification functions (`Watch`, `Poll`,
  `WaitOutcome`, `EmulatorOutcome`, `DeviceOutcome`), and lemmas about those
  functions state what the source promises. The parsers of `adb devices`,
  `emulator -list-avds` and `/proc/meminfo` output live in `DeviceOutput`,
  over the Python string operations of `PyStr` and the `posixpath` rules of
  `PyPath`.
* **`BarracudaRunner`** (`unity_nn/Assets/Scripts/BarracudaRunner.cs`) is the
  Unity component on the device. It:
  - takes the model name and hash from the launch intent;
  - loads `<persistentDataPath>/<name>.onnx`, or falls back to the
    Resources folder;
  - times one run;
  - writes `<name>_stats.json`, then logs `DONE <name>`.

  It is a Dafny class with the component's fields. Its methods ensure
  `Snapshot() == F(old(Snapshot()), p)`, where `F` is a specification
  function over a `State` value and `p` is a `Platform` value that holds
  everything the component reads from Unity, Android and .NET.
  Log lines and file writes are appended to an `effects` trace.
* **Unity helpers of `port.py`**:
  - the Editor log location;
  - the destination rule for copying a model into the Unity project;
  - the one-pass classifier that scans the Editor log for the ONNX
    importer's verdict.

`NamingContract` joins the two halves:
- the file the host pushes is the one the component loads, exactly when the
  model name does not already end in `.onnx`;
- the component writes its record where the host pulls it;
- the marker the component logs last is the one the host waits for.

| module | file | models |
|---|---|---|
| `Wrappers` | wrappers.dfy | `Option`, `Result`, and `Py` (a Python call that returns or raises) |
| `PyStr` | pystr.dfy | `in`, `endswith`, `strip`, `split` on `str` |
| `PyPath` | pypath.dfy | `posixpath.join`, `basename`, `dirname` |
| `HostWorld` | host_world.dfy | events, the world oracle, trace predicates |
| `DeviceOutput` | device_output.dfy | the output parsers of `VRProcessor` |
| `VRProcessorModel` | vr_processor.dfy | `VRProcessor` |
| `BarracudaRunnerModel` | barracuda_runner.dfy | `BarracudaRunner` |
| `NamingContract` | naming_contract.dfy | the host/device agreement |
| `UnityPort` | unity_port.dfy | `get_unity_log_path`, `copy_model_to_unity`, `check_onnx_log_messages` |

## Model

| member | source | states |
|---|---|---|
| DeviceOutput.Filter | vr_processor.py:35 | a list comprehension with a condition keeps only elements that pass it, all taken from the input, and is empty exactly when no element passes |
| DeviceOutput.ReadyDevices | vr_processor.py:33-35 | the `devices` list holds only lines of the stripped, newline-split listing that contain `\tdevice`, and is non-empty exactly when some line does |
| DeviceOutput.RunningEmulators | vr_processor.py:265-266 | the `emulators` list holds only lines containing both `emulator-` and `device`, and is non-empty exactly when some line does |
| DeviceOutput.ReadyEntry | vr_processor.py:35 | for an entry `serial<TAB>state`, the `\tdevice` test accepts exactly the states that begin with `device`, so `offline` and `unauthorized` entries are not counted |
| DeviceOutput.StrippedNonBlank | vr_processor.py:250 | stripping and dropping blank lines gives non-empty, already-stripped names, no more of them than there were lines |
| DeviceOutput.ParseAvds | vr_processor.py:250 | every AVD name parsed is non-empty, stripped and free of newlines |
| DeviceOutput.StrippedLinesFree | vr_processor.py:250 | stripping lines introduces no newline |
| DeviceOutput.StrippedNonBlankKeeps | vr_processor.py:250 | the strip-and-filter step leaves a list of non-empty, stripped names unchanged |
| DeviceOutput.ParseAvdsRoundTrip | vr_processor.py:248-250 | parsing `-list-avds` output made of names, one per newline-terminated line, gives back exactly those names in order |
| DeviceOutput.StrippedAppendBlank | vr_processor.py:250 | the empty piece after a final newline is dropped |
| DeviceOutput.LastIndex | vr_processor.py:147-155 | the index found is that of a line that passes the test, with no later line passing it, or -1 when no line passes |
| DeviceOutput.MemLookupIsLast | vr_processor.py:147-155 | the meminfo value recorded for a key is that of the LAST line with that key (split at its first `:` and stripped), and a key that no line has is absent |
| DeviceOutput.MemLookupSnoc | vr_processor.py:148-155 | reading one more line overwrites only its own key |
| DeviceOutput.MemTableIsLast | vr_processor.py:147-155 | the `mem_data` dictionary agrees, key by key, with the last-line-wins lookup, and holds no other key |
| DeviceOutput.FillMemData | vr_processor.py:150-153 | the `for line in lines` loop, each line with a `:` split at its first `:` into a stripped key and value that overwrite any earlier entry, ends with exactly `MemTable(lines)`, whose meaning `MemTableIsLast` gives |
| DeviceOutput.MeminfoTable | vr_processor.py:147-155 | the `for line in lines` loop builds exactly that dictionary from the `\n`-split output |
| VRProcessorModel.TargetFileName | vr_processor.py:49-52 | the remote file name ends in `.onnx`; it is the model name unchanged exactly when that name already ends in `.onnx`, and otherwise the name with `.onnx` appended |
| VRProcessorModel.TargetFileNameIdempotent | vr_processor.py:49-52 | applying the file-name rule to its own output changes nothing |
| VRProcessorModel.CompanionBeside | vr_processor.py:73-77 | the companion file is looked for in the model's own directory, under the fixed name `nn.onnx.data` |
| VRProcessorModel.LocalStatsFileInRunDir | vr_processor.py:215-216 | the directory created before the pull is the parent of `<stats dir>/<model>/android_vr.json` |
| VRProcessorModel.CheckAdbConnection | vr_processor.py:28-43 | runs `adb devices` once; returns true exactly when it exits 0 and lists a ready device; a missing adb gives false; any other launch exception escapes |
| VRProcessorModel.IsEmulatorRunning | vr_processor.py:260-273 | runs `adb devices` once; true exactly when it exits 0 and lists a running emulator; every failure gives false |
| VRProcessorModel.AvdList | vr_processor.py:245-258 | a listing that does not exit 0 gives no AVD; every name given is non-empty and stripped |
| VRProcessorModel.GetAvailableAvds | vr_processor.py:245-258 | runs `emulator -list-avds` once and returns the names parsed from its reply |
| VRProcessorModel.PushModel | vr_processor.py:45-96 | issues `mkdir -p` first, ignoring its status. It pushes the model to `<device dir>/<file name>` unless mkdir raised. It pushes `nn.onnx.data` to the device dir only when the primary push exited 0 and `os.path.exists` holds for the companion path (the `pathExists` answer, separate from what `open` reads). It returns true exactly when every push attempted exited 0. It never launches or pulls |
| VRProcessorModel.Sha256.constructor | vr_processor.py:101 | a fresh hash has been fed nothing |
| VRProcessorModel.Sha256.Update | vr_processor.py:104 | `update` appends the block to what was fed |
| VRProcessorModel.ComputeFileHash | vr_processor.py:98-105 | the 4096-byte block loop feeds the hash exactly the file's bytes, in order, so the digest is the SHA-256 of the file's content; a file that `open(..., "rb")` cannot read (missing, a directory, no permission) raises |
| VRProcessorModel.RunInferenceOnDevice | vr_processor.py:107-133 | force-stops the player, ignoring its status; unless that raised, starts it with `--es model_name <name> --es model_hash <hash>`; returns true exactly when the start exits 0; pushes and pulls nothing |
| VRProcessorModel.Analytics | vr_processor.py:137-141 | the analytics dictionary has exactly the keys `timestamp`, `memory_info`, `cpu_info` |
| VRProcessorModel.CollectDeviceAnalytics | vr_processor.py:135-165 | reads the clock, then runs `cat /proc/meminfo` and, unless that launch raised, `cat /proc/cpuinfo`. `memory_info` is the MemTotal/MemFree record when meminfo exits 0, else `{}`. `cpu_info` is the capture marker when cpuinfo exits 0, else `{}` |
| VRProcessorModel.WatchObserved | vr_processor.py:185-206 | the completion loop's events are the world's answers, and it runs no command |
| VRProcessorModel.WatchTerminates | vr_processor.py:185-206 | on every way out of the loop the pipe is terminated exactly once, as the last event; when the marker was not found, the loop ended on a failed read or on a clock reading past the deadline |
| VRProcessorModel.WatchInTime | vr_processor.py:185-186 | every read comes right after a clock reading that is within the timeout of the start |
| VRProcessorModel.WatchSleeps | vr_processor.py:186-189 | every empty read is followed by the 0.1 s sleep |
| VRProcessorModel.WatchStarts | vr_processor.py:185 | each pass of the loop begins with a clock reading |
| VRProcessorModel.WatchFound | vr_processor.py:186-198 | the loop reports success exactly when it read a line containing the marker; lines with `Exception` or `Error` do not end it |
| VRProcessorModel.PrefixKeeps | vr_processor.py:170-185 | putting the clear, the spawn and the start-time reading in front of the loop keeps every property of the loop's trace |
| VRProcessorModel.WaitRaises | vr_processor.py:170-184 | the wait raises exactly when `logcat -c` or the `Popen` of `logcat -s Unity` fails to launch, and then no pipe is terminated |
| VRProcessorModel.WaitObserved | vr_processor.py:167-206 | the wait's events are the world's answers |
| VRProcessorModel.WaitQuiet | vr_processor.py:167-206 | the wait pushes, launches and pulls nothing |
| VRProcessorModel.WaitEnds | vr_processor.py:185-206 | once the pipe is open it is terminated exactly once, last, on the match, the timeout and the read-exception paths. A false result means a failed read or a clock reading past `timeout` seconds. Every read lies within the timeout, and every empty read sleeps |
| VRProcessorModel.WaitFound | vr_processor.py:185-202 | `wait_for_completion` returns true exactly when a line containing `"DONE " + model_name` was read |
| VRProcessorModel.MonitorPass | vr_processor.py:185-198 | one pass of the `while` body (the deadline test on a fresh clock reading, one `readline()`, then the marker test or the 100 ms sleep on an empty line) is exactly `WatchPass`, which `MonitorLog` chains into `Watch` |
| VRProcessorModel.MonitorLog | vr_processor.py:185-199 | the `while` loop computes the loop specification |
| VRProcessorModel.WaitForCompletion | vr_processor.py:167-206 | the method computes the wait's specification, whose meaning the `Wait` lemmas give |
| VRProcessorModel.MergeAnalytics | vr_processor.py:231 | setting `device_analytics` on the pulled document adds or overwrites that key and keeps every other key |
| VRProcessorModel.AnalyticsNoTransfer | vr_processor.py:135-165 | collecting analytics runs nothing but `cat` on the device |
| VRProcessorModel.FetchStats | vr_processor.py:215-243 | creates the local run directory, then pulls `<device dir>/<model>_stats.json` into it. After an exit-0 pull it loads the file. When the load gives a document, the analytics are collected next, because the right-hand side of the store at line 231 runs first. The result is present exactly when the pull exited 0 and the document is an object. Then it is that object merged with the analytics, written back as the last event. Otherwise nothing is written. Only the one pull is a transfer |
| VRProcessorModel.FetchedNothing | vr_processor.py:224-243 | a failed pull ends the fetch after two events, and a load that raises ends it after three, with None |
| VRProcessorModel.FetchedNotObject | vr_processor.py:228-243 | a file that loads as JSON but not as an object still has the clock read and the `cat` queries run; then the store raises and the fetch gives None, with no write |
| VRProcessorModel.FetchedMerged | vr_processor.py:228-236 | a loaded object merged with analytics and written back is the fetch's result |
| VRProcessorModel.FetchedTrace | vr_processor.py:215-236 | the fetch's events are observed; the pull is its only transfer |
| VRProcessorModel.PullStats | vr_processor.py:208-243 | waits for the marker, then fetches whatever the wait returned: a timeout is only logged. An exception in the wait gives None with nothing pulled. It never pushes or launches |
| VRProcessorModel.PollObserved | vr_processor.py:300-319 | a polling loop's events are the world's answers |
| VRProcessorModel.PollKinds | vr_processor.py:300-319 | a polling loop runs nothing but its own command, and sleeps |
| VRProcessorModel.PollCount | vr_processor.py:300-319 | a polling loop runs its command at most `rounds` times, and exactly `rounds` times when it gives up |
| VRProcessorModel.PollGaveUp | vr_processor.py:300-319 | when a polling loop gives up, no reply it saw was a success |
| VRProcessorModel.PollCountsOnlyItsOwn | vr_processor.py:300-319 | a polling trace runs no other command |
| VRProcessorModel.AwaitConnect | vr_processor.py:300-303 | the connection loop computes the polling specification on `adb devices` |
| VRProcessorModel.AwaitBoot | vr_processor.py:311-319 | the boot loop computes the polling specification on `getprop sys.boot_completed` |
| VRProcessorModel.LaunchAvd | vr_processor.py:288-322 | starting the chosen AVD and waiting for it computes its specification |
| VRProcessorModel.EnsureEmulatorRunning | vr_processor.py:275-326 | the method computes the emulator start-up specification with 36 connection and 24 boot rounds |
| VRProcessorModel.PollQuiet | vr_processor.py:300-319 | the polling loops transfer nothing and start nothing |
| VRProcessorModel.PollCounts | vr_processor.py:300-319 | a polling loop runs its command at most `rounds` times and no other command |
| VRProcessorModel.PollLast | vr_processor.py:300-319 | a polling loop succeeds exactly when its last event is a run of its command whose reply passed; when it gives up, it ran nothing or its last event is the 5 s sleep |
| VRProcessorModel.LaunchObserved | vr_processor.py:288-322 | launching an AVD only records the world's answers |
| VRProcessorModel.LaunchQuiet | vr_processor.py:288-322 | launching an AVD transfers nothing; the only process it starts is the emulator for that AVD, first |
| VRProcessorModel.LaunchDevicesRuns | vr_processor.py:300-307 | launching an AVD runs `adb devices` at most 36 + 1 times |
| VRProcessorModel.LaunchBootQueries | vr_processor.py:311-319 | launching an AVD runs the boot query at most 24 times |
| VRProcessorModel.LaunchReady | vr_processor.py:305-322 | the launch succeeds exactly when its last event is a boot query whose stripped output is `1`, and only after `adb devices` showed an emulator |
| VRProcessorModel.EmulatorObserved | vr_processor.py:275-326 | the start-up's events are the world's answers; it pushes, launches and pulls nothing |
| VRProcessorModel.EmulatorBounded | vr_processor.py:283-319 | at most one emulator is started, as the third interaction, and it is the first AVD listed; `adb devices` runs at most 36 + 2 times, the boot query at most 24 times |
| VRProcessorModel.EmulatorReady | vr_processor.py:278-322 | the start-up returns true exactly when the first check already saw an emulator (with no listing and no start), or when its last act was a boot query that answered `1` |
| VRProcessorModel.EmulatorSeen | vr_processor.py:275-326 | the start-up never returns true without an `adb devices` reply that showed an emulator |
| VRProcessorModel.FindDevice | vr_processor.py:331-335 | the device step computes its specification. Its events are observed and transfer nothing. It raises exactly when the first `adb devices` raises something other than a missing binary. It finds a device only after a reply showed one |
| VRProcessorModel.DeviceObserved | vr_processor.py:331-335 | the device step's events are the world's answers and transfer nothing |
| VRProcessorModel.DeviceFound | vr_processor.py:331-335 | a device is found exactly when the first `adb devices` lists a ready device, or it does not, does not raise, and the emulator start-up succeeds; never without a reply that showed one |
| VRProcessorModel.CheckStats | vr_processor.py:344-352 | after a launch, pulls the stats and compares only a non-empty record: `Verified` when `model_hash` equals the given hash, `Mismatch` naming both otherwise; the merged record was the last thing written; it never pushes or launches |
| VRProcessorModel.Collect | vr_processor.py:342-352 | launches with the model's name and hash. Only after an exit-0 launch does it pull. Only a non-empty stats record is compared: `Verified` when `model_hash` equals the local hash, `Mismatch` naming both hashes otherwise. Either way the merged record was written last |
| VRProcessorModel.Deliver | vr_processor.py:341-352 | pushes first. A failed push launches and pulls nothing. A launch only follows a successful push, and a pull only a successful launch |
| VRProcessorModel.PushStopped | vr_processor.py:341 | a push stage that launches and pulls nothing is trivially gated: nothing can be launched or pulled out of order |
| VRProcessorModel.DeliverTrace | vr_processor.py:341-352 | joining a successful push stage with the launch stage keeps the gating and the hash facts |
| VRProcessorModel.ProcessModel | vr_processor.py:328-352 | finds a device before anything else. It raises exactly when the device probe raises, or when the model file cannot be opened for hashing (missing, a directory, no permission). It gives `NoDevice` exactly when no device was found. Pushes, launches and pulls happen only after a device was seen, each gated by the step before. A launch carries the local file's SHA-256. A mismatch is only reported |
| VRProcessorModel.AfterDevice | vr_processor.py:337-352 | the stages after the device step keep every session promise |
| VRProcessorModel.QuietSession | vr_processor.py:331-338 | a session that raised or found no device transferred nothing, and keeps every promise |
| VRProcessorModel.SessionTrace | vr_processor.py:331-344 | putting the device step in front of the delivery keeps the stage order |
| VRProcessorModel.SessionLaunchHashed | vr_processor.py:338-344 | every launch of a delivery run with the local file's hash carries that SHA-256, also behind the device step, which launches nothing |
| VRProcessorModel.SessionStatsHashed | vr_processor.py:344-352 | stats got by a delivery run with the local file's hash were written last to the local stats file, hold the analytics key, and were compared with that hash (`Verified` when equal, `Mismatch` naming both otherwise), also behind the device step |
| BarracudaRunnerModel.WrapInt64 | unity_nn/Assets/Scripts/BarracudaRunner.cs:141 | C#'s unchecked `long` product lies in [-2^63, 2^63) and is congruent to the exact product modulo 2^64 |
| BarracudaRunnerModel.WrapInt64InRange | unity_nn/Assets/Scripts/BarracudaRunner.cs:141 | a value that fits a `long` is unchanged |
| BarracudaRunnerModel.WrapInt32 | unity_nn/Assets/Scripts/BarracudaRunner.cs:165 | `systemMemorySize * 1024` in `int` lies in [-2^31, 2^31) and is congruent modulo 2^32 |
| BarracudaRunnerModel.CombineInserts | unity_nn/Assets/Scripts/BarracudaRunner.cs:38 | `Path.Combine` of a directory not ending in `/` and a relative, non-empty name puts exactly one `/` between them |
| BarracudaRunnerModel.Digits | unity_nn/Assets/Scripts/BarracudaRunner.cs:165 | `ToString()` of a non-negative integer gives decimal digits only, which read back in base 10 as the integer, and begin with `0` only for 0 itself |
| BarracudaRunnerModel.DurationBounds | unity_nn/Assets/Scripts/BarracudaRunner.cs:141 | because the division comes first, without overflow the duration `d` satisfies `d*f <= ticks*10^9 < (d+ticks)*f`: under one nanosecond lost per tick, and nothing lost when `f` divides 10^9 |
| BarracudaRunnerModel.DurationCoarse | unity_nn/Assets/Scripts/BarracudaRunner.cs:141 | a stopwatch with more than 10^9 ticks per second always reports 0 ns |
| BarracudaRunnerModel.BarracudaRunner.constructor | unity_nn/Assets/Scripts/BarracudaRunner.cs:11-20 | a new component holds its Inspector values, no runtime model and no effects |
| BarracudaRunnerModel.BarracudaRunner.Start | unity_nn/Assets/Scripts/BarracudaRunner.cs:22-71 | after the delay, the new state is the `Started` function of the old one |
| BarracudaRunnerModel.BarracudaRunner.SelectModel | unity_nn/Assets/Scripts/BarracudaRunner.cs:26-61 | the new state is the `Selected` function of the old one |
| BarracudaRunnerModel.BarracudaRunner.RunInference | unity_nn/Assets/Scripts/BarracudaRunner.cs:115-151 | with a runtime model or an asset, the new state is the `Inferred` function of the old one: the asset is loaded if needed, the run is logged, the duration is measured, the stats are saved |
| BarracudaRunnerModel.BarracudaRunner.SaveStats | unity_nn/Assets/Scripts/BarracudaRunner.cs:153-184 | appends the record's write, then the path log, then the marker; when `File.WriteAllText` throws, it appends nothing, and neither line is logged |
| BarracudaRunnerModel.SelectedChoice | unity_nn/Assets/Scripts/BarracudaRunner.cs:26-50 | the hash and the name become the intent's when those are neither null nor empty, else the Inspector values stay. Selection only logs and keeps earlier effects |
| BarracudaRunnerModel.StartedRuns | unity_nn/Assets/Scripts/BarracudaRunner.cs:22-71 | `Start` adds a run's effects exactly when a runtime model or an asset was obtained, and otherwise only the `Could not find model` error; a runtime model exists afterwards exactly then |
| BarracudaRunnerModel.SelectedFromFile | unity_nn/Assets/Scripts/BarracudaRunner.cs:34-50 | a model is loaded from a file exactly when the intent names one and `persistentDataPath/<name>.onnx` exists, and then from that file |
| BarracudaRunnerModel.SelectedResources | unity_nn/Assets/Scripts/BarracudaRunner.cs:52-61 | the Resources folder is tried, under the chosen name, only when there is neither a runtime model nor an asset; an Inspector asset is kept |
| BarracudaRunnerModel.StartedWrites | unity_nn/Assets/Scripts/BarracudaRunner.cs:63-70 | `Start` writes a stats file exactly when it found a model and the write did not throw (line 181), and it logs `DONE <name>` exactly then |
| BarracudaRunnerModel.RunRecord | unity_nn/Assets/Scripts/BarracudaRunner.cs:155-183 | the record carries the name and hash verbatim, the measured duration, status `success`, `free_ram_kb` `N/A` (line 208) and the processor type, and goes to `persistentDataPath/<name>_stats.json`; a run whose write throws writes nothing and logs no marker |
| BarracudaRunnerModel.DoneText | unity_nn/Assets/Scripts/BarracudaRunner.cs:183 | of all the component's log lines, only the marker starts with `DONE `, and what follows is the model name |
| BarracudaRunnerModel.MarkerAfterWriteExtend | unity_nn/Assets/Scripts/BarracudaRunner.cs:181-183 | appending effects without a marker keeps "every marker follows its record's write" |
| BarracudaRunnerModel.RunMarkerAfterWrite | unity_nn/Assets/Scripts/BarracudaRunner.cs:181-183 | a run writes its record before it logs the marker for the same name, and a run whose write throws logs no marker |
| BarracudaRunnerModel.StartedKeepsMarkerAfterWrite | unity_nn/Assets/Scripts/BarracudaRunner.cs:22-71 | `Start` preserves the invariant that every `DONE <name>` comes after a record for `<name>` was written |
| BarracudaRunnerModel.SelectedNoMarker | unity_nn/Assets/Scripts/BarracudaRunner.cs:26-61 | the selection logs no marker |
| NamingContract.PushedIsLoaded | vr_processor.py:49-54 | on the player's data directory, the host's push target equals the component's load path (BarracudaRunner.cs:38) exactly when the name does not end in `.onnx`; for `x.onnx` the component looks for `x.onnx.onnx` |
| NamingContract.StatsWhereHostPulls | vr_processor.py:218 | the record the component writes (BarracudaRunner.cs:171-172) is at the path the host pulls |
| NamingContract.MarkerSeen | vr_processor.py:191 | whatever logcat puts around the component's `DONE <name>` line (BarracudaRunner.cs:183), the host's substring test finds its marker |
| NamingContract.SessionContract | vr_processor.py:116-121 | launched with a name that does not end in `.onnx` and a non-empty hash, after the push, the component loads the pushed file and runs it. When the write succeeds it writes a record with that name and hash to the pulled path, and its last effect is the host's marker; when the write throws, no marker is logged |
| UnityPort.UnityLogPathCases | port.py:11-17 | a path exactly on Windows and macOS, `Unsupported OS` elsewhere; the Windows path ends in `\AppData\Local\Unity\Editor\Editor.log`, the macOS one in `/Library/Logs/Unity/Editor.log` under the home directory |
| UnityPort.DestinationKeepsName | port.py:22 | the copy keeps the file's base name and lands directly in the model directory |
| UnityPort.DefaultDirShape | port.py:20 | the default model directory is a plain relative directory path |
| UnityPort.ScanOfSnoc | port.py:42-47 | reading one more line sets the flags its classification calls for, and an error line replaces the detail |
| UnityPort.ScanLog | port.py:41-47 | the loop leaves `found_success` set exactly when some line contains the success message. It sets `found_error` exactly when some line has the error prefix but not the success message. `error_detail` is what `Scanned` says |
| UnityPort.ErrorDetailIsLast | port.py:45-47 | `error_detail` is the stripped text of the LAST line with the error prefix and not the success message; it is set exactly when `found_error` is |
| UnityPort.SuccessWinsOnOneLine | port.py:43-47 | a line with both the success message and the error prefix counts only as a success |
| UnityPort.ReportLines | port.py:49-55 | the report starts with the header; it says success exactly when the flag is set, prints the error detail exactly when an error was found, and says there were no loader messages exactly when neither was |
| UnityPort.SuccessAndErrorTogether | port.py:50-53 | one log can be reported both as a success and as an error |
| UnityPort.CheckOnnxLogMessages | port.py:28-55 | an unsupported OS is an error. A missing log prints only the not-found line, before any scan. A path that exists but cannot be opened (a directory, no read permission) fails with `open`'s error and prints nothing. Otherwise the report of the scanned log is printed |

## Left out

- Processes, the clock, `logcat`, `json`, files and SHA-256 are not executed. On the host they are oracle answers of a `World`; on the device they are fields of a `Platform`. SHA-256 is an uninterpreted function of the bytes.
- The detached emulator and the logcat pipe run concurrently with the host; the model sees only the sequence of values its loops receive.
- `logging` output, the emoji log lines and `print` text of the host are not modelled. The only printed output modelled is that of `check_onnx_log_messages`.
- The tool paths of `__init__` (vr_processor.py:24-26) are not modelled. Commands name a tool (`adb` or `emulator`) and its arguments.
- `time.time()` is a float in the source; the model reads integer milliseconds, and `timestamp` in the analytics is that integer.
- VRProcessorModel.WaitForCompletion: requires that the clock reaches the wait's deadline for good: from some interaction on, every reading is past it (`World.Reaches`). Readings before that may repeat or even go back, so a burst of lines read within one millisecond is allowed. A clock that never gets past the deadline, on which the source would loop for ever, is not modelled. `readline()` on a silent pipe blocks in the source, and the deadline is only checked at the loop head, so the model promises no wall-clock bound on a silent stream. It only promises that every read happens within the timeout.
- VRProcessorModel.MonitorLog: carries the same clock requirement, for the deadline of its loop.
- VRProcessorModel.PullStats: carries the clock requirement of `WaitForCompletion`, for the wait it starts.
- VRProcessorModel.CheckStats: carries the clock requirement of `WaitForCompletion`, through `PullStats`.
- VRProcessorModel.Collect: carries the clock requirement of `WaitForCompletion`, for the wait that starts after the launch.
- VRProcessorModel.Deliver: requires that the clock reaches, for good, the deadline of a stats wait that starts at interaction `m + 4` or at `m + 5` (`World.Reaches`). These are the two places the wait can start: two or three push-stage commands come first, then the force-stop and the launch.
- VRProcessorModel.AfterDevice: requires that the clock reaches every time for good (`World.ClockRuns`). Where its delivery starts depends on how many lookups ran before it.
- VRProcessorModel.ProcessModel: requires `World.ClockRuns`, for the same reason as `AfterDevice`.
- VRProcessorModel.WatchObserved: requires that the clock reaches the loop's deadline for good, as `MonitorLog` does.
- VRProcessorModel.WatchTerminates: requires that the clock reaches the loop's deadline for good, as `MonitorLog` does.
- VRProcessorModel.WatchInTime: requires that the clock reaches the loop's deadline for good, as `MonitorLog` does.
- VRProcessorModel.WatchSleeps: requires that the clock reaches the loop's deadline for good, as `MonitorLog` does.
- VRProcessorModel.WatchStarts: requires that the clock reaches the loop's deadline for good, as `MonitorLog` does.
- VRProcessorModel.WatchFound: requires that the clock reaches the loop's deadline for good, as `MonitorLog` does.
- VRProcessorModel.WaitRaises: requires that the clock reaches the wait's deadline for good, as `WaitForCompletion` does.
- VRProcessorModel.WaitObserved: requires that the clock reaches the wait's deadline for good, as `WaitForCompletion` does.
- VRProcessorModel.WaitQuiet: requires that the clock reaches the wait's deadline for good, as `WaitForCompletion` does.
- VRProcessorModel.WaitEnds: requires that the clock reaches the wait's deadline for good, as `WaitForCompletion` does.
- VRProcessorModel.WaitFound: requires that the clock reaches the wait's deadline for good, as `WaitForCompletion` does.
- VRProcessorModel.LocalStatsFileInRunDir: requires a non-empty model name without `/`, because the model joins paths with `posixpath.join`. The source uses `pathlib`, which also drops empty and `.` components and so keeps the parent relation for other names; that normalisation is not modelled.
- VRProcessorModel.AwaitConnect: the round counts (36 and 24 in the source) are parameters. `EnsureEmulatorRunning` passes the source's constants.
- VRProcessorModel.AwaitBoot: the round counts (36 and 24 in the source) are parameters. `EnsureEmulatorRunning` passes the source's constants.
- VRProcessorModel.LaunchAvd: the round counts (36 and 24 in the source) are parameters. `EnsureEmulatorRunning` passes the source's constants.
- VRProcessorModel.EmulatorBounded: these are stated for any readers of the command replies (`Readers`). `SourceReaders` are the source's parsers.
- VRProcessorModel.EmulatorReady: these are stated for any readers of the command replies (`Readers`). `SourceReaders` are the source's parsers.
- VRProcessorModel.DeviceFound: these are stated for any readers of the command replies (`Readers`). `SourceReaders` are the source's parsers.
- The failure of `Path.mkdir` or `json.dump` in `pull_stats` is not modelled separately. An `open` or `json.load` that raises is one `None` answer of `World.parsed`.
- The 3-second `WaitForSeconds` delay of `Start` is not modelled, and neither are the JNI intent readers (BarracudaRunner.cs:73-113). The intent's extras are given as `intentName`/`intentHash`. The shell splitting of `am start` arguments is not modelled, so a name or hash with spaces arrives unchanged.
- The Barracuda worker, tensors and `ModelLoader.Load` are not modelled; loading is assumed to succeed. `FromFile`/`FromAsset` record where the model came from.
- `JsonUtility.ToJson` text is not modelled; the record is written as a `StatsData` value.
- BarracudaRunnerModel.BarracudaRunner.SaveStats: the `double` timestamp is whole seconds. The directory test and creation at BarracudaRunner.cs:175-179 are left out, since `persistentDataPath` always exists. A `File.WriteAllText` that throws is the `writeOk` answer of `Platform`. The report Unity's player logs for the uncaught exception is not an effect of the model.
- `inputWidth`, `inputHeight` and `inputChannels` only shape the dummy tensor and are not modelled.
- `copy_model_to_unity`: the directory creation, `shutil.copy2` and the print are file I/O and are not modelled; only its destination rule is.
- Paths follow `posixpath`. The Windows `ntpath` rules and the expansion of `%USERPROFILE%` beyond a single variable lookup are not modelled.
- `main` of port.py uses the external `ab.nn.api` and pandas and is not modelled. The copy of `check_onnx_log_messages` in validate_onnx.py is the same code, covered by the port.py model.
- Reading the Editor log with `errors="ignore"` is not modelled. The log is given as its lines, newlines kept.
