/**
  The line-oriented parsers `VRProcessor` applies to the text printed by
  `adb devices`, `emulator -list-avds` and `adb shell cat /proc/meminfo`.
*/
module DeviceOutput {
  import opened Wrappers
  import opened PyStr

  /** `[line for line in lines if keep(line)]`. */
  function Filter(lines: seq<string>, keep: string -> bool): (r: seq<string>)
    ensures |r| <= |lines|
    ensures forall i :: 0 <= i < |r| ==> keep(r[i]) && r[i] in lines
    ensures r == [] <==> forall i :: 0 <= i < |lines| ==> !keep(lines[i])
  {
    if lines == [] then []
    else
      var rest := Filter(lines[1..], keep);
      assert forall x :: x in lines[1..] ==> x in lines;
      assert forall i :: 1 <= i < |lines| ==> lines[i] == lines[1..][i - 1];
      (if keep(lines[0]) then [lines[0]] else []) + rest
  }

  /** `result.stdout.strip().split('\n')`, the lines of an `adb devices` listing. */
  function ListingLines(out: string): seq<string> {
    Split(Strip(out), '\n')
  }

  /** A line that `check_adb_connection` takes for an attached, ready device. */
  predicate IsReadyDeviceLine(line: string) {
    Contains(line, "\tdevice")
  }

  /** A line that `is_emulator_running` takes for a running emulator. */
  predicate IsEmulatorLine(line: string) {
    Contains(line, "emulator-") && Contains(line, "device")
  }

  /** The `devices` list of `check_adb_connection`. */
  function ReadyDevices(out: string): (devices: seq<string>)
    ensures forall i :: 0 <= i < |devices| ==> IsReadyDeviceLine(devices[i]) && devices[i] in ListingLines(out)
    ensures devices != [] <==> exists i :: 0 <= i < |ListingLines(out)| && IsReadyDeviceLine(ListingLines(out)[i])
  {
    Filter(ListingLines(out), IsReadyDeviceLine)
  }

  /** The `emulators` list of `is_emulator_running`. */
  function RunningEmulators(out: string): (emulators: seq<string>)
    ensures forall i :: 0 <= i < |emulators| ==> IsEmulatorLine(emulators[i]) && emulators[i] in ListingLines(out)
    ensures emulators != [] <==> exists i :: 0 <= i < |ListingLines(out)| && IsEmulatorLine(ListingLines(out)[i])
  {
    Filter(ListingLines(out), IsEmulatorLine)
  }

  /**
    In an `adb devices` entry `serial<TAB>state`, the test for `"\tdevice"`
    accepts exactly the states that begin with `device`: `offline`,
    `unauthorized` or `no permissions` entries are not taken for a device.
  */
  lemma {:induction false} ReadyEntry(serial: string, state: string)
    requires '\t' !in serial && '\t' !in state
    ensures IsReadyDeviceLine(serial + "\t" + state) <==> (|state| >= 6 && state[..6] == "device")
  {
    var line := serial + "\t" + state;
    if |state| >= 6 && state[..6] == "device" {
      assert line[|serial|..|serial| + 7] == "\tdevice";
      assert OccursAt(line, "\tdevice", |serial|);
    }
    if IsReadyDeviceLine(line) {
      var i :| OccursAt(line, "\tdevice", i);
      assert line[i] == "\tdevice"[0];
      OnlyTab(serial, state, i);
      assert state[..6] == line[i + 1..i + 7];
    }
  }

  /** The only tab of `serial<TAB>state` is the one between them. */
  lemma OnlyTab(serial: string, state: string, k: int)
    requires '\t' !in serial && '\t' !in state
    requires 0 <= k < |serial| + 1 + |state|
    ensures (serial + "\t" + state)[k] == '\t' <==> k == |serial|
  {
    var line := serial + "\t" + state;
    if k < |serial| {
      assert line[k] == serial[k];
    } else if k > |serial| {
      assert line[k] == state[k - |serial| - 1];
    }
  }

  /** `[s for s in stripped lines if s]`, each line stripped. */
  function StrippedNonBlank(lines: seq<string>): (r: seq<string>)
    ensures |r| <= |lines|
    ensures forall i :: 0 <= i < |r| ==> r[i] != "" && Strip(r[i]) == r[i]
  {
    if lines == [] then []
    else
      var a := Strip(lines[0]);
      StripIdempotent(lines[0]);
      (if a != "" then [a] else []) + StrippedNonBlank(lines[1..])
  }

  /** `get_available_avds`: `[avd.strip() for avd in result.stdout.split('\n') if avd.strip()]`. */
  function ParseAvds(out: string): (avds: seq<string>)
    ensures forall i :: 0 <= i < |avds| ==> avds[i] != "" && Strip(avds[i]) == avds[i] && '\n' !in avds[i]
  {
    var lines := Split(out, '\n');
    var avds := StrippedNonBlank(lines);
    assert forall i :: 0 <= i < |avds| ==> '\n' !in avds[i] by {
      StrippedLinesFree(lines);
    }
    avds
  }

  lemma {:induction false} StrippedLinesFree(lines: seq<string>)
    requires forall i :: 0 <= i < |lines| ==> '\n' !in lines[i]
    ensures forall i :: 0 <= i < |StrippedNonBlank(lines)| ==> '\n' !in StrippedNonBlank(lines)[i]
  {
    if lines != [] {
      StripKeepsOut(lines[0], '\n');
      StrippedLinesFree(lines[1..]);
    }
  }

  lemma {:induction false} StrippedNonBlankKeeps(names: seq<string>)
    requires forall i :: 0 <= i < |names| ==> names[i] != "" && Strip(names[i]) == names[i]
    ensures StrippedNonBlank(names) == names
  {
    if names != [] {
      StrippedNonBlankKeeps(names[1..]);
      assert [names[0]] + names[1..] == names;
    }
  }

  /**
    `emulator -list-avds` prints one name per line, each line ending in a
    newline; parsing that output gives back exactly the names, in order.
  */
  lemma {:induction false} ParseAvdsRoundTrip(names: seq<string>)
    requires forall i :: 0 <= i < |names| ==> names[i] != "" && Strip(names[i]) == names[i] && '\n' !in names[i]
    ensures ParseAvds(Join(names + [""], '\n')) == names
  {
    var lines := names + [""];
    assert forall i :: 0 <= i < |lines| ==> '\n' !in lines[i] by {
      assert forall i :: 0 <= i < |names| ==> lines[i] == names[i];
    }
    SplitJoin(lines, '\n');
    StrippedAppendBlank(names);
    StrippedNonBlankKeeps(names);
  }

  lemma {:induction false} StrippedAppendBlank(names: seq<string>)
    ensures StrippedNonBlank(names + [""]) == StrippedNonBlank(names)
  {
    if names == [] {
      assert Strip("") == "";
      assert StrippedNonBlank([""]) == [] + StrippedNonBlank([]);
    } else {
      assert (names + [""])[1..] == names[1..] + [""];
      StrippedAppendBlank(names[1..]);
    }
  }

  /** The key of a `/proc/meminfo` line: the stripped text before its first `:`. */
  function MemKey(line: string): string
    requires ':' in line
  {
    Strip(SplitOnce(line, ':').0)
  }

  /** The value of a `/proc/meminfo` line: the stripped text after its first `:`. */
  function MemValue(line: string): string
    requires ':' in line
  {
    Strip(SplitOnce(line, ':').1)
  }

  /** `line` contains a `:` and its key is `key`. */
  predicate HasKey(line: string, key: string) {
    ':' in line && MemKey(line) == key
  }

  /** The index of the last element of `lines` that satisfies `keep`, or -1 when none does. */
  function LastIndex(lines: seq<string>, keep: string -> bool): (i: int)
    ensures -1 <= i < |lines|
    ensures i >= 0 ==> keep(lines[i])
    ensures forall j :: i < j < |lines| ==> !keep(lines[j])
  {
    if lines == [] then -1
    else if keep(lines[|lines| - 1]) then |lines| - 1
    else LastIndex(lines[..|lines| - 1], keep)
  }

  /** The value recorded for `key` after reading `lines` in order (see `MemLookupIsLast`). */
  function MemLookup(lines: seq<string>, key: string): Option<string>
  {
    var i := LastIndex(lines, (l: string) => HasKey(l, key));
    if i < 0 then None else Some(MemValue(lines[i]))
  }

  /**
    Later duplicates overwrite earlier ones: the value recorded for `key` is
    that of the LAST line with that key, and a key no line has is absent.
  */
  lemma MemLookupIsLast(lines: seq<string>, key: string)
    ensures MemLookup(lines, key).None? <==> forall j :: 0 <= j < |lines| ==> !HasKey(lines[j], key)
    ensures MemLookup(lines, key).Some? ==>
              exists i :: 0 <= i < |lines| && HasKey(lines[i], key) && MemLookup(lines, key).value == MemValue(lines[i]) &&
                          forall j :: i < j < |lines| ==> !HasKey(lines[j], key)
  {
    var i := LastIndex(lines, (l: string) => HasKey(l, key));
    if i >= 0 {
      assert HasKey(lines[i], key);
    }
  }

  /** Reading one more line: it overwrites the entry of its own key and leaves the others alone. */
  lemma MemLookupSnoc(front: seq<string>, line: string, key: string)
    ensures MemLookup(front + [line], key) == if HasKey(line, key) then Some(MemValue(line)) else MemLookup(front, key)
  {
    var lines := front + [line];
    assert lines[..|lines| - 1] == front;
    assert lines[|lines| - 1] == line;
  }

  /** The entry of `m` at `key`, as an `Option`. */
  function Entry(m: map<string, string>, key: string): Option<string> {
    if key in m then Some(m[key]) else None
  }

  /** `m.get(key, default)`. */
  function GetOr(m: map<string, string>, key: string, default: string): string {
    if key in m then m[key] else default
  }

  /** The `mem_data` dictionary after the lines `lines` were read in order. */
  function MemTable(lines: seq<string>): map<string, string> {
    if lines == [] then map[]
    else
      var table := MemTable(lines[..|lines| - 1]);
      var line := lines[|lines| - 1];
      if ':' in line then table[MemKey(line) := MemValue(line)] else table
  }

  /** The dictionary holds, for each key, the value of the last line with that key, and no other key. */
  lemma {:induction false} MemTableIsLast(lines: seq<string>, key: string)
    ensures Entry(MemTable(lines), key) == MemLookup(lines, key)
  {
    if lines != [] {
      var front := lines[..|lines| - 1];
      assert lines == front + [lines[|lines| - 1]];
      MemTableIsLast(front, key);
      MemLookupSnoc(front, lines[|lines| - 1], key);
    }
  }

  /** Reading one more line adds its key and value when it has a colon, and changes nothing otherwise. */
  lemma MemTableStep(lines: seq<string>, i: nat)
    requires i < |lines|
    ensures ':' in lines[i] ==> MemTable(lines[..i + 1]) == MemTable(lines[..i])[MemKey(lines[i]) := MemValue(lines[i])]
    ensures ':' !in lines[i] ==> MemTable(lines[..i + 1]) == MemTable(lines[..i])
  {
    var p := lines[..i + 1];
    assert p[..|p| - 1] == lines[..i];
    assert p[|p| - 1] == lines[i];
  }

  /** The loop of `collect_device_analytics` that fills `mem_data` from `lines`, in order. */
  method FillMemData(lines: seq<string>) returns (memData: map<string, string>)
    ensures memData == MemTable(lines)
  {
    memData := map[];
    var i := 0;
    while i < |lines|
      invariant 0 <= i <= |lines|
      invariant memData == MemTable(lines[..i])
    {
      var line := lines[i];
      MemTableStep(lines, i);
      if ':' in line {
        var (k, v) := SplitOnce(line, ':');
        memData := memData[Strip(k) := Strip(v)];
      }
      i := i + 1;
    }
    assert lines[..i] == lines;
  }

  /** `mem_data` as `collect_device_analytics` builds it from the lines of the output `out` of `cat /proc/meminfo`. */
  method MeminfoTable(out: string) returns (memData: map<string, string>)
    ensures memData == MemTable(Split(out, '\n'))
  {
    memData := FillMemData(Split(out, '\n'));
  }

  /** `mem_data.get(key, 'Unknown')`. */
  function MemGet(out: string, key: string): string {
    GetOr(MemTable(Split(out, '\n')), key, "Unknown")
  }
}
