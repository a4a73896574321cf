/**
  `BarracudaRunner`, the device side of the protocol: the Unity component
  that picks the model named by the launch intent (or one it already has),
  runs it once, writes a stats record into its persistent data directory
  and then logs the completion marker the host waits for.

  Everything the component asks of Unity, Barracuda and Android (the intent
  extras, `File.Exists`, `Resources.Load`, the stopwatch, the clock,
  `SystemInfo`) is a field of the `Platform` value its methods are given.
  What it does to the outside (a log line, a file write) is appended to its
  `effects`.
*/
module BarracudaRunnerModel {
  import opened Wrappers

  /** `1000000000L`: nanoseconds per second. */
  const NanosPerSecond: int := 1000000000
  const Int64Modulus: int := 0x1_0000_0000_0000_0000
  const Int64Max: int := 0x7FFF_FFFF_FFFF_FFFF
  const Int32Modulus: int := 0x1_0000_0000
  /** What `status` is set to in every record. */
  const SuccessStatus: string := "success"
  /** The field initialiser of `MemoryInfo.free_ram_kb`. */
  const FreeRamUnknown: string := "N/A"

  // ---------------------------------------------------------------------
  // C# and .NET primitives
  // ---------------------------------------------------------------------

  /** C#'s unchecked `long` arithmetic: `x` reduced modulo 2^64 into [-2^63, 2^63). */
  function WrapInt64(x: int): (r: int)
    ensures -Int64Max - 1 <= r <= Int64Max
    ensures (x - r) % Int64Modulus == 0
  {
    var m := x % Int64Modulus;
    if m > Int64Max then m - Int64Modulus else m
  }

  /** A value that fits a `long` is left alone by the wrap-around. */
  lemma WrapInt64InRange(x: int)
    requires -Int64Max - 1 <= x <= Int64Max
    ensures WrapInt64(x) == x
  {
  }

  /** C#'s unchecked `int` arithmetic: `x` reduced modulo 2^32 into [-2^31, 2^31). */
  function WrapInt32(x: int): (r: int)
    ensures -0x8000_0000 <= r < 0x8000_0000
    ensures (x - r) % Int32Modulus == 0
  {
    var m := x % Int32Modulus;
    if m >= 0x8000_0000 then m - Int32Modulus else m
  }

  /** `string.IsNullOrEmpty`, with None for `null`. */
  predicate IsNullOrEmpty(s: Option<string>) {
    s.None? || s.value == ""
  }

  /**
    .NET `Path.Combine(a, b)` on Android, where `/` is the only separator: an
    empty `b` gives `a`, an empty `a` or a rooted `b` gives `b`, and a `/` is
    put between them unless one is already there.  (Unlike `os.path.join`,
    `Combine(a, "")` does not end in a separator.)
  */
  function Combine(a: string, b: string): string {
    if b == "" then a
    else if a == "" || b[0] == '/' then b
    else if a[|a| - 1] == '/' then a + b
    else a + "/" + b
  }

  /** Combining a directory that does not end in `/` with a relative, non-empty name inserts one `/`. */
  lemma CombineInserts(a: string, b: string)
    requires a != "" && a[|a| - 1] != '/'
    requires b != "" && b[0] != '/'
    ensures Combine(a, b) == a + "/" + b
  {
  }

  /** The character of the decimal digit `d`. */
  function DigitChar(d: nat): (c: char)
    requires d < 10
  {
    ('0' as int + d) as char
  }

  /**
    The decimal digits of `n`, most significant first: they read back as
    `n`, and only `0` itself starts with the digit `0`.
  */
  function Digits(n: nat): (s: string)
    ensures |s| >= 1 && forall i :: 0 <= i < |s| ==> '0' <= s[i] <= '9'
    ensures DecimalValue(s) == n
    ensures s[0] == '0' ==> n == 0
  {
    if n < 10 then
      assert [DigitChar(n)][..0] == [];
      [DigitChar(n)]
    else
      var front := Digits(n / 10);
      assert (front + [DigitChar(n % 10)])[..|front|] == front;
      front + [DigitChar(n % 10)]
  }

  /** The number that the decimal digits `s` stand for, most significant first. */
  function DecimalValue(s: string): int {
    if s == [] then 0 else DecimalValue(s[..|s| - 1]) * 10 + (s[|s| - 1] as int - '0' as int)
  }

  /** `ToString()` of an integer: an optional `-` and its decimal digits. */
  function Decimal(n: int): string {
    if n < 0 then "-" + Digits(-n) else Digits(n)
  }

  // ---------------------------------------------------------------------
  // The record and the platform
  // ---------------------------------------------------------------------

  datatype MemoryInfo = MemoryInfo(total_ram_kb: string, free_ram_kb: string)

  datatype CpuInfo = CpuInfo(raw: string)

  /** `timestamp` is the C# `double` of seconds since 1970, here whole seconds. */
  datatype DeviceAnalytics = DeviceAnalytics(timestamp: int, memory_info: MemoryInfo, cpu_info: CpuInfo)

  /** The `[Serializable]` record `SaveStats` writes as JSON. */
  datatype StatsData = StatsData(model_name: string, model_hash: string, duration_ns: int, status: string,
                                 device_analytics: DeviceAnalytics)

  /** `Debug.Log`, `Debug.LogError`. */
  datatype Level = Info | Error

  /** The lines the component logs, each with what it interpolates. */
  datatype Message =
    | LoadingFrom(path: string)          // a model file was found
    | FileMissing(path: string)          // the intent named a file that does not exist
    | AutoLoaded(name: string)           // an asset was found in Resources
    | NoModel(name: string)              // nothing to run
    | InferenceStarting(name: string)
    | InferenceFinished(durationNs: int)
    | StatsSaved(path: string)
    | Done(name: string)                 // the completion marker

  /** The text of a log line. */
  function Text(m: Message): string {
    match m
    case LoadingFrom(path) => "Loading model from path: " + path
    case FileMissing(path) => "Model file not found at: " + path
    case AutoLoaded(name) => "Auto-loaded model '" + name + "' from Resources."
    case NoModel(name) =>
      "Could not find model '" + name + "'. Make sure it is in persistent data path, Resources folder, or assigned in the Inspector."
    case InferenceStarting(name) => "Starting Mock Inference for " + name + "..."
    case InferenceFinished(d) => "Inference finished. Duration: " + Decimal(d) + " ns"
    case StatsSaved(path) => "Stats saved to: " + path
    case Done(name) => "DONE " + name
  }

  datatype Effect =
    | Logged(level: Level, msg: Message)
    | WroteFile(path: string, data: StatsData)   // File.WriteAllText(path, JsonUtility.ToJson(data, true))

  /** A model asset (`NNModel`): assigned in the Inspector or found by `Resources.Load`. */
  datatype NNModel = NNModel(asset: string)

  /** What `m_RuntimeModel` holds once a model was loaded. */
  datatype RuntimeModel = FromFile(path: string) | FromAsset(source: NNModel)

  /** The answers of Unity, Barracuda and Android to the component. */
  datatype Platform = Platform(
    persistentDataPath: string,            // Application.persistentDataPath
    intentName: Option<string>,            // GetModelNameFromIntent(); None for null
    intentHash: Option<string>,            // GetModelHashFromIntent(); None for null
    fileExists: string -> bool,            // File.Exists
    resource: string -> Option<NNModel>,   // Resources.Load<NNModel>(name); None for null
    elapsedTicks: int,                     // stopwatch.ElapsedTicks after the run
    frequency: int,                        // Stopwatch.Frequency
    utcSeconds: int,                       // DateTime.UtcNow as seconds since 1970
    systemMemorySize: int,                 // SystemInfo.systemMemorySize, in MB
    processorType: string,                 // SystemInfo.processorType
    writeOk: bool)                         // File.WriteAllText returns; false when it throws (an IOException, say)
  {
    /** What .NET guarantees of these values: a positive tick rate, a `long` tick count that is not negative, an `int` memory size. */
    predicate Valid() {
      frequency > 0 && 0 <= elapsedTicks <= Int64Max && -0x8000_0000 <= systemMemorySize < 0x8000_0000
    }
  }

  /** The file the component loads a model named `name` from. */
  function ModelPath(p: Platform, name: string): string {
    Combine(p.persistentDataPath, name + ".onnx")
  }

  /** The file the component writes the stats of `name` to. */
  function StatsPath(p: Platform, name: string): string {
    Combine(p.persistentDataPath, name + "_stats.json")
  }

  // ---------------------------------------------------------------------
  // The measured duration
  // ---------------------------------------------------------------------

  /** `stopwatch.ElapsedTicks * (1000000000L / Stopwatch.Frequency)`: the division first, the product in `long`. */
  function DurationNs(ticks: int, frequency: int): int
    requires frequency > 0
  {
    WrapInt64(ticks * (NanosPerSecond / frequency))
  }

  /** `10^9 == q * f + r` with `0 <= r < f` for the quotient and remainder of the division the duration truncates. */
  lemma NanosDivision(f: int) returns (q: int, r: int)
    requires f > 0
    ensures q == NanosPerSecond / f && r == NanosPerSecond % f
    ensures NanosPerSecond == q * f + r && 0 <= r < f && q >= 0
  {
    q, r := NanosPerSecond / f, NanosPerSecond % f;
  }

  /**
    Without overflow the duration `d` is the number of nanoseconds
    `ticks * 10^9 / frequency` less what truncating `10^9 / frequency`
    before the product loses, which is under one nanosecond per tick:
    `d * frequency <= ticks * 10^9 < (d + ticks) * frequency`.  When
    `frequency` divides `10^9` nothing is lost.
  */
  lemma DurationBounds(ticks: int, frequency: int)
    requires frequency > 0 && ticks >= 0
    requires ticks * (NanosPerSecond / frequency) <= Int64Max
    ensures var d := DurationNs(ticks, frequency);
            d * frequency <= ticks * NanosPerSecond &&
            (ticks > 0 ==> ticks * NanosPerSecond < (d + ticks) * frequency) &&
            (NanosPerSecond % frequency == 0 ==> d * frequency == ticks * NanosPerSecond)
  {
    var q, r := NanosDivision(frequency);
    var d := ticks * q;
    assert d >= 0;
    WrapInt64InRange(d);
    assert DurationNs(ticks, frequency) == d;
    assert ticks * NanosPerSecond == d * frequency + ticks * r by {
      assert ticks * (q * frequency + r) == ticks * q * frequency + ticks * r;
    }
    assert ticks * r >= 0;
    assert (d + ticks) * frequency == d * frequency + ticks * frequency;
    if ticks > 0 {
      assert ticks * r < ticks * frequency;
    }
    if r == 0 {
      assert ticks * r == 0;
    }
  }

  /** A stopwatch that ticks faster than once a nanosecond always reports 0. */
  lemma DurationCoarse(ticks: int, frequency: int)
    requires frequency > NanosPerSecond
    ensures DurationNs(ticks, frequency) == 0
  {
    assert NanosPerSecond / frequency == 0;
  }

  // ---------------------------------------------------------------------
  // The component's state, and what each method makes of it
  // ---------------------------------------------------------------------

  /** The component's fields, as one value. */
  datatype State = State(modelAsset: Option<NNModel>, modelName: string, modelHash: string,
                         runtimeModel: Option<RuntimeModel>, effects: seq<Effect>)

  /** The `memory_info.total_ram_kb` string: `SystemInfo.systemMemorySize * 1024 + " kB"`, the product in `int`. */
  function TotalRamKb(p: Platform): string {
    Decimal(WrapInt32(p.systemMemorySize * 1024)) + " kB"
  }

  /** The record `SaveStats(durationNs)` fills in for state `s`. */
  function Record(s: State, p: Platform, durationNs: int): StatsData {
    StatsData(s.modelName, s.modelHash, durationNs, SuccessStatus,
              DeviceAnalytics(p.utcSeconds, MemoryInfo(TotalRamKb(p), FreeRamUnknown), CpuInfo(p.processorType)))
  }

  /**
    What `SaveStats(durationNs)` does: the record written, then two log
    lines, the marker last.  A `File.WriteAllText` that throws writes nothing,
    and the exception ends the coroutine before either line is logged.
  */
  function SaveEffects(s: State, p: Platform, durationNs: int): seq<Effect> {
    var path := StatsPath(p, s.modelName);
    if p.writeOk then [WroteFile(path, Record(s, p, durationNs)), Logged(Info, StatsSaved(path)), Logged(Info, Done(s.modelName))]
    else []
  }

  /** The state after `SaveStats(durationNs)`. */
  function Saved(s: State, p: Platform, durationNs: int): State {
    s.(effects := s.effects + SaveEffects(s, p, durationNs))
  }

  /** The duration a run reports. */
  function Measured(p: Platform): int
    requires p.Valid()
  {
    DurationNs(p.elapsedTicks, p.frequency)
  }

  /** What `RunInference()` does: two log lines around the run, then what `SaveStats` does. */
  function RunEffects(s: State, p: Platform): seq<Effect>
    requires p.Valid()
  {
    [Logged(Info, InferenceStarting(s.modelName)), Logged(Info, InferenceFinished(Measured(p)))] + SaveEffects(s, p, Measured(p))
  }

  /** The state after `RunInference()` on a component that has a runtime model or an asset: the asset loaded if need be. */
  function Inferred(s: State, p: Platform): State
    requires HasModel(s)
    requires p.Valid()
  {
    s.(runtimeModel := if s.runtimeModel.None? then Some(FromAsset(s.modelAsset.value)) else s.runtimeModel,
       effects := s.effects + RunEffects(s, p))
  }

  /** The hash `Start` settles on. */
  function ChosenHash(s: State, p: Platform): string {
    if IsNullOrEmpty(p.intentHash) then s.modelHash else p.intentHash.value
  }

  /** The name `Start` settles on. */
  function ChosenName(s: State, p: Platform): string {
    if IsNullOrEmpty(p.intentName) then s.modelName else p.intentName.value
  }

  /** The state after `Start` has read the intent and tried the model file, before the Resources fallback. */
  function Named(s: State, p: Platform): State {
    var hashed := s.(modelHash := ChosenHash(s, p));
    if IsNullOrEmpty(p.intentName) then hashed
    else
      var path := ModelPath(p, p.intentName.value);
      if p.fileExists(path) then
        hashed.(modelName := p.intentName.value, runtimeModel := Some(FromFile(path)),
                effects := hashed.effects + [Logged(Info, LoadingFrom(path))])
      else
        hashed.(modelName := p.intentName.value, effects := hashed.effects + [Logged(Error, FileMissing(path))])
  }

  /** The state after `Start`'s selection of a model: `Named`, then Resources only when there is neither a runtime model nor an asset. */
  function Selected(s: State, p: Platform): State {
    var named := Named(s, p);
    if named.runtimeModel.None? && named.modelAsset.None? then
      var asset := p.resource(named.modelName);
      named.(modelAsset := asset,
             effects := named.effects + if asset.Some? then [Logged(Info, AutoLoaded(named.modelName))] else [])
    else named
  }

  /** Whether the component has something to run. */
  predicate HasModel(s: State) {
    s.runtimeModel.Some? || s.modelAsset.Some?
  }

  /** The state after the whole of `Start`. */
  function Started(s: State, p: Platform): State
    requires p.Valid()
  {
    var selected := Selected(s, p);
    if HasModel(selected) then Inferred(selected, p)
    else selected.(effects := selected.effects + [Logged(Error, NoModel(selected.modelName))])
  }

  // ---------------------------------------------------------------------
  // The component
  // ---------------------------------------------------------------------

  class BarracudaRunner {
    var modelAsset: Option<NNModel>
    var modelName: string
    var modelHash: string
    var runtimeModel: Option<RuntimeModel>
    var effects: seq<Effect>

    /** The component as the scene creates it, with its Inspector values; nothing is loaded and nothing has happened. */
    constructor (asset: Option<NNModel>, name: string, hash: string)
      ensures Snapshot() == State(asset, name, hash, None, [])
    {
      modelAsset, modelName, modelHash := asset, name, hash;
      runtimeModel := None;
      effects := [];
    }

    function Snapshot(): State
      reads this
    {
      State(modelAsset, modelName, modelHash, runtimeModel, effects)
    }

    /** `Start()` after its initial delay: pick a model, then run it or log that none was found. */
    method Start(p: Platform)
      requires p.Valid()
      modifies this
      ensures Snapshot() == Started(old(Snapshot()), p)
    {
      SelectModel(p);
      if runtimeModel.Some? || modelAsset.Some? {
        RunInference(p);
      } else {
        effects := effects + [Logged(Error, NoModel(modelName))];
      }
    }

    /** The part of `Start()` that reads the intent, tries the model file and falls back to Resources. */
    method SelectModel(p: Platform)
      modifies this
      ensures Snapshot() == Selected(old(Snapshot()), p)
    {
      var externalModelName := p.intentName;
      var externalModelHash := p.intentHash;
      if !IsNullOrEmpty(externalModelHash) {
        modelHash := externalModelHash.value;
      }
      if !IsNullOrEmpty(externalModelName) {
        modelName := externalModelName.value;
        var path := Combine(p.persistentDataPath, modelName + ".onnx");
        if p.fileExists(path) {
          effects := effects + [Logged(Info, LoadingFrom(path))];
          runtimeModel := Some(FromFile(path));
        } else {
          effects := effects + [Logged(Error, FileMissing(path))];
        }
      }
      if runtimeModel.None? && modelAsset.None? {
        modelAsset := p.resource(modelName);
        if modelAsset.Some? {
          effects := effects + [Logged(Info, AutoLoaded(modelName))];
        }
      }
    }

    /** `RunInference()`: load the asset when there is no runtime model yet, time one run, save the stats. */
    method RunInference(p: Platform)
      requires runtimeModel.Some? || modelAsset.Some?
      requires p.Valid()
      modifies this
      ensures Snapshot() == Inferred(old(Snapshot()), p)
    {
      effects := effects + [Logged(Info, InferenceStarting(modelName))];
      if runtimeModel.None? {
        runtimeModel := Some(FromAsset(modelAsset.value));
      }
      var durationNs := WrapInt64(p.elapsedTicks * (NanosPerSecond / p.frequency));
      effects := effects + [Logged(Info, InferenceFinished(durationNs))];
      SaveStats(p, durationNs);
    }

    /** `SaveStats(durationNs)`: fill the record, write it to the stats file, then log where and the marker; nothing after a write that throws. */
    method SaveStats(p: Platform, durationNs: int)
      modifies this
      ensures Snapshot() == Saved(old(Snapshot()), p, durationNs)
    {
      var memory := MemoryInfo(TotalRamKb(p), FreeRamUnknown);
      var data := StatsData(modelName, modelHash, durationNs, SuccessStatus,
                            DeviceAnalytics(p.utcSeconds, memory, CpuInfo(p.processorType)));
      var fileName := modelName + "_stats.json";
      var path := Combine(p.persistentDataPath, fileName);
      if !p.writeOk {
        // File.WriteAllText threw: the exception leaves SaveStats, RunInference
        // and the Start coroutine, each of which has nothing left to do after it.
        return;
      }
      effects := effects + [WroteFile(path, data)];
      effects := effects + [Logged(Info, StatsSaved(path))];
      effects := effects + [Logged(Info, Done(modelName))];
    }
  }

  // ---------------------------------------------------------------------
  // What Start promises
  // ---------------------------------------------------------------------

  /**
    The selection settles on the intent's hash and name when those are
    neither null nor empty, and on the Inspector values otherwise; it only
    logs (it writes no file) and keeps what was logged before.
  */
  lemma SelectedChoice(s: State, p: Platform)
    ensures Selected(s, p).modelHash == ChosenHash(s, p) && Selected(s, p).modelName == ChosenName(s, p)
    ensures |Selected(s, p).effects| >= |s.effects| && Selected(s, p).effects[..|s.effects|] == s.effects
    ensures forall i :: |s.effects| <= i < |Selected(s, p).effects| ==> Selected(s, p).effects[i].Logged?
  {
  }

  /**
    `Start` runs the model (adding the events of a run) exactly when the
    selection produced a runtime model or an asset, and otherwise only logs
    that no model was found; the hash and name it ends with are those the
    intent chose.
  */
  lemma StartedRuns(s: State, p: Platform)
    requires p.Valid()
    ensures var selected := Selected(s, p);
            Started(s, p).effects ==
              selected.effects + if HasModel(selected) then RunEffects(selected, p) else [Logged(Error, NoModel(selected.modelName))]
    ensures Started(s, p).modelName == ChosenName(s, p) && Started(s, p).modelHash == ChosenHash(s, p)
    ensures Started(s, p).modelAsset == Selected(s, p).modelAsset
    ensures Started(s, p).runtimeModel.Some? <==> HasModel(Selected(s, p))
  {
    SelectedChoice(s, p);
  }

  /**
    A model is loaded from a file only when the intent named one and
    `persistentDataPath/<name>.onnx` exists, and then from exactly that file.
  */
  lemma SelectedFromFile(s: State, p: Platform)
    requires s.runtimeModel.None?
    ensures Selected(s, p).runtimeModel.Some? <==>
              !IsNullOrEmpty(p.intentName) && p.fileExists(ModelPath(p, p.intentName.value))
    ensures Selected(s, p).runtimeModel.Some? ==> Selected(s, p).runtimeModel == Some(FromFile(ModelPath(p, p.intentName.value)))
  {
  }

  /**
    Resources are looked up, under the chosen name, only when neither a
    file model nor an Inspector asset is there; an Inspector asset is kept.
  */
  lemma SelectedResources(s: State, p: Platform)
    ensures Selected(s, p).modelAsset ==
              if Named(s, p).runtimeModel.None? && s.modelAsset.None? then p.resource(ChosenName(s, p)) else s.modelAsset
  {
  }

  /**
    `Start` writes a stats file exactly when it found a model and the write
    did not throw, and it logs a completion marker exactly then.
  */
  lemma StartedWrites(s: State, p: Platform)
    requires p.Valid()
    ensures (exists i :: |s.effects| <= i < |Started(s, p).effects| && Started(s, p).effects[i].WroteFile?) <==>
            HasModel(Selected(s, p)) && p.writeOk
    ensures (exists i :: |s.effects| <= i < |Started(s, p).effects| && Started(s, p).effects[i] == Logged(Info, Done(Started(s, p).modelName))) <==>
            HasModel(Selected(s, p)) && p.writeOk
  {
    var selected := Selected(s, p);
    var ev := Started(s, p).effects;
    StartedRuns(s, p);
    SelectedChoice(s, p);
    SelectedNoMarker(s, p);
    assert forall i :: |s.effects| <= i < |selected.effects| ==> ev[i] == selected.effects[i];
    if HasModel(selected) {
      var run := RunEffects(selected, p);
      assert forall i :: |selected.effects| <= i < |ev| ==> ev[i] == run[i - |selected.effects|];
      if p.writeOk {
        assert ev[|selected.effects| + 2].WroteFile?;
        assert ev[|selected.effects| + 4] == Logged(Info, Done(Started(s, p).modelName));
      }
    } else {
      assert ev[|selected.effects|].Logged?;
    }
  }

  /**
    The record a run writes carries the name and hash verbatim, the measured
    duration, status `success`, `free_ram_kb` `N/A` and the processor type,
    and goes to `persistentDataPath/<name>_stats.json`.  A run whose write
    throws writes nothing and logs no marker.
  */
  lemma RunRecord(s: State, p: Platform)
    requires p.Valid()
    ensures |RunEffects(s, p)| == if p.writeOk then 5 else 2
    ensures !p.writeOk ==> forall i :: 0 <= i < |RunEffects(s, p)| ==> RunEffects(s, p)[i].Logged? && !RunEffects(s, p)[i].msg.Done?
    ensures p.writeOk ==>
            var e := RunEffects(s, p)[2];
            e.WroteFile? && e.path == StatsPath(p, s.modelName) &&
            e.data.model_name == s.modelName && e.data.model_hash == s.modelHash &&
            e.data.duration_ns == DurationNs(p.elapsedTicks, p.frequency) &&
            e.data.status == "success" && e.data.device_analytics.memory_info.free_ram_kb == "N/A" &&
            e.data.device_analytics.cpu_info.raw == p.processorType
  {
  }

  // ---------------------------------------------------------------------
  // The marker comes after the file
  // ---------------------------------------------------------------------

  /** A log line whose text starts like a completion marker. */
  predicate IsDone(e: Effect) {
    e.Logged? && |Text(e.msg)| >= 5 && Text(e.msg)[..5] == "DONE "
  }

  /** Only the marker's text starts with `DONE `, and what follows is the name it was logged for. */
  lemma DoneText(m: Message)
    ensures (|Text(m)| >= 5 && Text(m)[..5] == "DONE ") <==> m.Done?
    ensures m.Done? ==> Text(m)[5..] == m.name
  {
    match m
    case LoadingFrom(_) => assert Text(m)[0] == 'L'; NotDone(Text(m));
    case FileMissing(_) => assert Text(m)[0] == 'M'; NotDone(Text(m));
    case AutoLoaded(_) => assert Text(m)[0] == 'A'; NotDone(Text(m));
    case NoModel(_) => assert Text(m)[0] == 'C'; NotDone(Text(m));
    case InferenceStarting(_) => assert Text(m)[0] == 'S'; NotDone(Text(m));
    case InferenceFinished(d) =>
      var head := "Inference finished. Duration: ";
      assert Text(m) == head + (Decimal(d) + " ns");
      assert Text(m)[0] == head[0];
      NotDone(Text(m));
    case StatsSaved(_) => assert Text(m)[0] == 'S'; NotDone(Text(m));
    case Done(_) =>
  }

  /** A line whose first letter is not `D` does not start with `DONE `. */
  lemma NotDone(t: string)
    requires |t| > 0 && t[0] != 'D'
    ensures !(|t| >= 5 && t[..5] == "DONE ")
  {
    assert "DONE "[0] == 'D';
  }

  /** Every completion marker `DONE <name>` comes after a stats record for `<name>` was written. */
  predicate MarkerAfterWrite(ev: seq<Effect>) {
    forall i :: 0 <= i < |ev| && IsDone(ev[i]) ==>
      exists j :: 0 <= j < i && ev[j].WroteFile? && ev[j].data.model_name == Text(ev[i].msg)[5..]
  }

  /** Appending effects that hold no marker keeps the ordering. */
  lemma MarkerAfterWriteExtend(ev: seq<Effect>, more: seq<Effect>)
    requires MarkerAfterWrite(ev)
    requires forall i :: 0 <= i < |more| ==> !more[i].Logged? || !more[i].msg.Done?
    ensures MarkerAfterWrite(ev + more)
  {
    var all := ev + more;
    assert forall i :: 0 <= i < |ev| ==> all[i] == ev[i];
    assert forall i :: |ev| <= i < |all| ==> all[i] == more[i - |ev|];
    forall i | 0 <= i < |all| && IsDone(all[i])
      ensures exists j :: 0 <= j < i && all[j].WroteFile? && all[j].data.model_name == Text(all[i].msg)[5..]
    {
      DoneText(all[i].msg);
      if i < |ev| {
        var j :| 0 <= j < i && ev[j].WroteFile? && ev[j].data.model_name == Text(ev[i].msg)[5..];
        assert all[j] == ev[j];
      }
    }
  }

  /** A run writes its record before it logs the marker for the same name. */
  lemma RunMarkerAfterWrite(before: seq<Effect>, s: State, p: Platform)
    requires p.Valid()
    requires MarkerAfterWrite(before)
    ensures MarkerAfterWrite(before + RunEffects(s, p))
  {
    var run := RunEffects(s, p);
    if !p.writeOk {
      MarkerAfterWriteExtend(before, run);
      return;
    }
    MarkerAfterWriteExtend(before, run[..4]);
    var front := before + run[..4];
    var all := front + [run[4]];
    assert before + run == all;
    assert all[|before| + 2] == run[2];
    assert forall i :: 0 <= i < |front| ==> all[i] == front[i];
    forall i | 0 <= i < |all| && IsDone(all[i])
      ensures exists j :: 0 <= j < i && all[j].WroteFile? && all[j].data.model_name == Text(all[i].msg)[5..]
    {
      if i < |front| {
        var j :| 0 <= j < i && front[j].WroteFile? && front[j].data.model_name == Text(front[i].msg)[5..];
        assert all[j] == front[j];
      } else {
        assert all[i] == Logged(Info, Done(s.modelName));
      }
    }
  }

  /**
    `Start` keeps the protocol's ordering: if every marker in the effects so
    far followed the write of its record, so does every marker after it.
  */
  lemma StartedKeepsMarkerAfterWrite(s: State, p: Platform)
    requires p.Valid()
    requires MarkerAfterWrite(s.effects)
    ensures MarkerAfterWrite(Started(s, p).effects)
  {
    var selected := Selected(s, p);
    var added := selected.effects[|s.effects|..];
    SelectedChoice(s, p);
    assert selected.effects == s.effects + added;
    assert forall i :: 0 <= i < |added| ==> !added[i].msg.Done? by {
      assert forall i :: 0 <= i < |added| ==> added[i] == selected.effects[|s.effects| + i];
      SelectedNoMarker(s, p);
    }
    MarkerAfterWriteExtend(s.effects, added);
    StartedRuns(s, p);
    if HasModel(selected) {
      RunMarkerAfterWrite(selected.effects, selected, p);
    } else {
      MarkerAfterWriteExtend(selected.effects, [Logged(Error, NoModel(selected.modelName))]);
    }
  }

  /** The selection logs no marker. */
  lemma SelectedNoMarker(s: State, p: Platform)
    ensures forall i :: |s.effects| <= i < |Selected(s, p).effects| ==> !Selected(s, p).effects[i].msg.Done?
  {
  }
}
