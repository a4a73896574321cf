/**
  The agreement between the host orchestrator and the device component:
  the file the host pushes is the file the component loads, the record the
  component writes is the file the host pulls, and the line the component
  logs last is the marker the host waits for.

  Android's `persistentDataPath` for the player package is the host's
  `DeviceModelDir`; the launch intent's `model_name` and `model_hash`
  extras arrive at the component as its `intentName` and `intentHash`.
  Both are hypotheses of the lemmas below.
*/
module NamingContract {
  import opened Wrappers
  import opened PyStr
  import VRProcessorModel
  import opened BarracudaRunnerModel

  /** A platform whose persistent data directory is where the host pushes. */
  predicate OnPlayerDir(p: Platform) {
    p.persistentDataPath == VRProcessorModel.DeviceModelDir
  }

  /** A name that `Path.Combine` treats as relative: empty or not starting with `/`. */
  predicate Relative(name: string) {
    name == "" || name[0] != '/'
  }

  /**
    The component looks for the file the host pushed exactly when the model
    name does not already end in `.onnx`: for `x.onnx` the host pushes
    `x.onnx` but the component looks for `x.onnx.onnx`.
  */
  lemma PushedIsLoaded(p: Platform, name: string)
    requires OnPlayerDir(p) && Relative(name)
    ensures VRProcessorModel.PushTarget(name) == ModelPath(p, name) <==> !EndsWith(name, ".onnx")
  {
    var dir := VRProcessorModel.DeviceModelDir;
    CombineInserts(dir, name + ".onnx");
    if EndsWith(name, ".onnx") {
      assert |VRProcessorModel.PushTarget(name)| < |ModelPath(p, name)|;
    }
  }

  /** The component writes its stats exactly where the host pulls them from. */
  lemma StatsWhereHostPulls(p: Platform, name: string)
    requires OnPlayerDir(p) && Relative(name)
    ensures StatsPath(p, name) == VRProcessorModel.DeviceStatsPath(name)
  {
    CombineInserts(VRProcessorModel.DeviceModelDir, name + "_stats.json");
  }

  /** Whatever logcat puts around the component's last line, the host finds its marker in it. */
  lemma MarkerSeen(name: string, pre: string, post: string)
    ensures Contains(pre + Text(Done(name)) + post, VRProcessorModel.Marker(name))
  {
    ContainsInfix(pre, VRProcessorModel.Marker(name), post);
  }

  /**
    A session as the host intends it: launched with a name that does not end
    in `.onnx` and a non-empty hash, after pushing the model file.  The
    component then loads that file and runs it.  When the write succeeds it
    writes a record carrying that name and hash to the path the host pulls,
    and logs the host's marker last; when the write throws, it writes
    nothing and logs no marker, so the host's wait can only time out.
  */
  lemma SessionContract(s: State, p: Platform, name: string, hash: string)
    requires p.Valid() && OnPlayerDir(p)
    requires name != "" && name[0] != '/' && !EndsWith(name, ".onnx") && hash != ""
    requires p.intentName == Some(name) && p.intentHash == Some(hash)
    requires p.fileExists(VRProcessorModel.PushTarget(name))
    ensures Selected(s, p).runtimeModel == Some(FromFile(VRProcessorModel.PushTarget(name)))
    ensures var run := RunEffects(Selected(s, p), p);
            Started(s, p).effects == Selected(s, p).effects + run &&
            run == Started(s, p).effects[|Started(s, p).effects| - |run|..]
    ensures var run := RunEffects(Selected(s, p), p);
            p.writeOk ==>
              |run| == 5 &&
              run[2].WroteFile? && run[2].path == VRProcessorModel.DeviceStatsPath(name) &&
              run[2].data.model_name == name && run[2].data.model_hash == hash &&
              run[4] == Logged(Info, Done(name)) && Text(run[4].msg) == VRProcessorModel.Marker(name)
    ensures var run := RunEffects(Selected(s, p), p);
            !p.writeOk ==> forall i :: 0 <= i < |run| ==> run[i].Logged? && !run[i].msg.Done?
  {
    PushedIsLoaded(p, name);
    SelectedFromFile(s.(runtimeModel := None), p);
    SelectedChoice(s, p);
    StartedRuns(s, p);
    StatsWhereHostPulls(p, name);
    RunRecord(Selected(s, p), p);
  }
}
