/**
  What the host orchestrator sees of the outside world.

  Every external interaction of `VRProcessor` (a `subprocess.run`, a
  `subprocess.Popen`, a `time.time()` reading, a `readline()` on the logcat
  pipe, a `json.load` of the pulled file, a `time.sleep`, a `terminate()`,
  a directory creation, a `json.dump`) is one `Event`.  Interactions are
  numbered from 0 in the order they happen, and a `World` answers the
  interaction numbered `i` by looking at `i`: that is how replies that change
  over time (a device that appears after some polls, a clock that runs, a
  log stream that eventually prints the marker) are supplied.
*/
module HostWorld {
  import opened Wrappers

  /** The two executables the host drives. */
  datatype Tool = Adb | Emulator

  /** One command line: the tool and its arguments (the argv after the executable path). */
  datatype Command = Command(tool: Tool, args: seq<string>)

  /** What launching a command gives back. */
  datatype Reply =
    | Exited(code: int, stdout: string, stderr: string)  // the process ran (for Popen: it started)
    | NotFound                                           // FileNotFoundError: the executable is missing
    | OsFault                                            // any other exception raised by the launch

  /** What `process.stdout.readline()` gives back: a line ("" at end of stream) or an exception. */
  datatype LineRead = Line(text: string) | ReadFault

  /** The JSON values that `json.load` produces; numbers (including the float timestamp) are opaque integers. */
  datatype Json =
    | JNull
    | JBool(b: bool)
    | JNum(n: int)
    | JStr(s: string)
    | JArr(items: seq<Json>)
    | JObj(fields: map<string, Json>)

  /** A JSON object, Python's `dict` loaded from or dumped to a file. */
  type JsonObject = map<string, Json>

  datatype Event =
    | Ran(cmd: Command, reply: Reply)            // subprocess.run
    | Spawned(cmd: Command, reply: Reply)        // subprocess.Popen
    | Clock(ms: int)                             // time.time(), in milliseconds
    | ReadLine(read: LineRead)                   // readline() on the logcat pipe
    | Slept(delay: nat)                           // time.sleep
    | Terminated                                 // process.terminate() on the logcat pipe
    | MadeDirs(dir: string)                      // Path.mkdir(parents=True, exist_ok=True)
    | Loaded(path: string, doc: Option<Json>)    // open + json.load; None when either raises
    | Wrote(path: string, written: JsonObject)     // open(.., 'w') + json.dump

  /** The oracle that answers the host's interactions. */
  datatype World = World(
    reply: (nat, Command) -> Reply,        // outcome of the command launched as interaction i
    clock: nat -> int,                     // time.time() read as interaction i, in milliseconds
    readLine: nat -> LineRead,             // what readline() returns as interaction i
    parsed: nat -> Option<Json>,           // what json.load returns for the file read as interaction i; None when it raises
    pathExists: string -> bool,            // os.path.exists: whether something is at a local path
    localFile: string -> Option<seq<bv8>>, // what open(path, "rb") reads; None when it raises (missing, a directory, unreadable)
    sha256: seq<bv8> -> string)            // hashlib.sha256(data).hexdigest()
  {
    /** From interaction `d` on, every reading of the clock is at least `t`. */
    ghost predicate PastFrom(d: nat, t: int) {
      forall j: nat :: d <= j ==> clock(j) >= t
    }

    /**
      The clock reaches `t` for good: from some interaction on, every
      reading is at least `t`.  Readings before that may repeat, or even go
      back, so a burst of interactions within one millisecond is allowed.
    */
    ghost predicate Reaches(t: int) {
      exists d: nat :: PastFrom(d, t)
    }

    /** The clock reaches every time for good. */
    ghost predicate ClockRuns() {
      forall t: int :: Reaches(t)
    }

    /** An interaction from which on every clock reading is at least `t`. */
    ghost function Horizon(t: int): (d: nat)
      requires Reaches(t)
      ensures PastFrom(d, t)
    {
      var d: nat :| PastFrom(d, t); d
    }

    /** The event of running `cmd` as interaction `i`. */
    function Run(i: nat, cmd: Command): (e: Event)
      ensures e.Ran? && e.cmd == cmd && e.reply == reply(i, cmd)
    {
      Ran(cmd, reply(i, cmd))
    }

    /** The event of spawning `cmd` as interaction `i`. */
    function Spawn(i: nat, cmd: Command): (e: Event)
      ensures e.Spawned? && e.cmd == cmd && e.reply == reply(i, cmd)
    {
      Spawned(cmd, reply(i, cmd))
    }
  }

  /** Event `e`, the interaction numbered `i`, carries what the world answers at `i`. */
  ghost predicate Agrees(w: World, i: nat, e: Event) {
    match e
    case Ran(c, r) => r == w.reply(i, c)
    case Spawned(c, r) => r == w.reply(i, c)
    case Clock(t) => t == w.clock(i)
    case ReadLine(l) => l == w.readLine(i)
    case Loaded(_, d) => d == w.parsed(i)
    case _ => true
  }

  /** The events `ev`, numbered from `n`, are what the world answered: nothing was made up. */
  ghost predicate Observed(w: World, n: nat, ev: seq<Event>) {
    forall k :: 0 <= k < |ev| ==> Agrees(w, n + k, ev[k])
  }

  lemma ObservedConcat(w: World, n: nat, a: seq<Event>, b: seq<Event>)
    requires Observed(w, n, a) && Observed(w, n + |a|, b)
    ensures Observed(w, n, a + b)
  {
    forall k | 0 <= k < |a + b| ensures Agrees(w, n + k, (a + b)[k]) {
      if k >= |a| {
        assert (a + b)[k] == b[k - |a|];
        assert Agrees(w, n + |a| + (k - |a|), b[k - |a|]);
      } else {
        assert (a + b)[k] == a[k];
      }
    }
  }

  /** The process exited with status 0. */
  predicate Succeeded(r: Reply) {
    r.Exited? && r.code == 0
  }

  /** How many events of `ev` run exactly `cmd`. */
  function CountRuns(ev: seq<Event>, cmd: Command): (c: nat)
    ensures c <= |ev|
  {
    if ev == [] then 0
    else CountRuns(ev[..|ev| - 1], cmd) + (if ev[|ev| - 1].Ran? && ev[|ev| - 1].cmd == cmd then 1 else 0)
  }

  lemma {:induction false} CountRunsConcat(a: seq<Event>, b: seq<Event>, cmd: Command)
    ensures CountRuns(a + b, cmd) == CountRuns(a, cmd) + CountRuns(b, cmd)
    decreases |b|
  {
    if b == [] {
      assert a + b == a;
    } else {
      assert (a + b)[..|a + b| - 1] == a + b[..|b| - 1];
      CountRunsConcat(a, b[..|b| - 1], cmd);
    }
  }

  /** Appending one event counts it when it runs `cmd`. */
  lemma CountRunsSnoc(ev: seq<Event>, e: Event, cmd: Command)
    ensures CountRuns(ev + [e], cmd) == CountRuns(ev, cmd) + (if e.Ran? && e.cmd == cmd then 1 else 0)
  {
    assert (ev + [e])[..|ev|] == ev;
  }

  /** A single event is counted when it runs `cmd`. */
  lemma CountRunsOne(e: Event, cmd: Command)
    ensures CountRuns([e], cmd) == if e.Ran? && e.cmd == cmd then 1 else 0
  {
    assert [e][..0] == [];
  }

  /** Classifiers for the three transfer steps of a session. */
  predicate IsPush(e: Event) {
    e.Ran? && e.cmd.tool == Adb && |e.cmd.args| > 0 && e.cmd.args[0] == "push"
  }

  predicate IsPull(e: Event) {
    e.Ran? && e.cmd.tool == Adb && |e.cmd.args| > 0 && e.cmd.args[0] == "pull"
  }

  predicate IsLaunch(e: Event) {
    e.Ran? && e.cmd.tool == Adb && |e.cmd.args| >= 3 && e.cmd.args[0] == "shell" && e.cmd.args[1] == "am" && e.cmd.args[2] == "start"
  }

  /** None of `ev` is a push, a launch or a pull. */
  predicate NoTransfer(ev: seq<Event>) {
    forall k :: 0 <= k < |ev| ==> !IsPush(ev[k]) && !IsLaunch(ev[k]) && !IsPull(ev[k])
  }

  lemma NoTransferConcat(a: seq<Event>, b: seq<Event>)
    requires NoTransfer(a) && NoTransfer(b)
    ensures NoTransfer(a + b)
  {
    forall k | 0 <= k < |a + b| ensures !IsPush((a + b)[k]) && !IsLaunch((a + b)[k]) && !IsPull((a + b)[k]) {
      if k < |a| { assert (a + b)[k] == a[k]; } else { assert (a + b)[k] == b[k - |a|]; }
    }
  }

  /** No process is started in the background by `ev`. */
  predicate NoSpawn(ev: seq<Event>) {
    forall k :: 0 <= k < |ev| ==> !ev[k].Spawned?
  }

  lemma NoSpawnConcat(a: seq<Event>, b: seq<Event>)
    requires NoSpawn(a) && NoSpawn(b)
    ensures NoSpawn(a + b)
  {
    forall k | 0 <= k < |a + b| ensures !(a + b)[k].Spawned? {
      if k < |a| { assert (a + b)[k] == a[k]; } else { assert (a + b)[k] == b[k - |a|]; }
    }
  }

  /** No event of `ev` satisfies `p`. */
  predicate NoneOf(ev: seq<Event>, p: Event -> bool) {
    forall k :: 0 <= k < |ev| ==> !p(ev[k])
  }

  /** Every event of `ev` that satisfies `later` is preceded by one that satisfies `earlier`. */
  predicate Gated(ev: seq<Event>, later: Event -> bool, earlier: Event -> bool) {
    forall k :: 0 <= k < |ev| && later(ev[k]) ==> exists j :: 0 <= j < k && earlier(ev[j])
  }

  /** A trace with no `later` event is gated by anything. */
  lemma GatedNone(ev: seq<Event>, later: Event -> bool, earlier: Event -> bool)
    requires NoneOf(ev, later)
    ensures Gated(ev, later, earlier)
  {
  }

  /** Once an `earlier` event has happened, everything after it is gated. */
  lemma GatedAfter(a: seq<Event>, b: seq<Event>, j: nat, later: Event -> bool, earlier: Event -> bool)
    requires j < |a| && earlier(a[j]) && NoneOf(a, later)
    ensures Gated(a + b, later, earlier)
  {
    forall k | 0 <= k < |a + b| && later((a + b)[k]) ensures exists i :: 0 <= i < k && earlier((a + b)[i]) {
      assert (a + b)[j] == a[j];
    }
  }

  /** Appending events that do not satisfy `later` keeps a trace gated. */
  lemma GatedExtend(a: seq<Event>, b: seq<Event>, later: Event -> bool, earlier: Event -> bool)
    requires Gated(a, later, earlier) && NoneOf(b, later)
    ensures Gated(a + b, later, earlier)
  {
    forall k | 0 <= k < |a + b| && later((a + b)[k]) ensures exists i :: 0 <= i < k && earlier((a + b)[i]) {
      if k < |a| {
        assert (a + b)[k] == a[k];
        var i :| 0 <= i < k && earlier(a[i]);
        assert (a + b)[i] == a[i];
      }
    }
  }

  /** Putting events with no `later` event in front keeps a trace gated. */
  lemma GatedBehind(a: seq<Event>, b: seq<Event>, later: Event -> bool, earlier: Event -> bool)
    requires NoneOf(a, later) && Gated(b, later, earlier)
    ensures Gated(a + b, later, earlier)
  {
    assert forall k :: 0 <= k < |a| ==> (a + b)[k] == a[k];
    forall k | 0 <= k < |a + b| && later((a + b)[k]) ensures exists i :: 0 <= i < k && earlier((a + b)[i]) {
      assert (a + b)[k] == b[k - |a|];
      var i :| 0 <= i < k - |a| && earlier(b[i]);
      assert (a + b)[|a| + i] == b[i];
    }
  }

  lemma NoneOfConcat(a: seq<Event>, b: seq<Event>, p: Event -> bool)
    requires NoneOf(a, p) && NoneOf(b, p)
    ensures NoneOf(a + b, p)
  {
    forall k | 0 <= k < |a + b| ensures !p((a + b)[k]) {
      if k < |a| { assert (a + b)[k] == a[k]; } else { assert (a + b)[k] == b[k - |a|]; }
    }
  }
}
