/**
  The Unity side of the porting script: where the Unity Editor keeps its
  log, where a model file is copied into the Unity project, and how the
  Editor log is scanned for the ONNX importer's verdict.

  What the script prints is its only result, so it is modelled as the list
  of lines printed.  Paths use the `posixpath` rules of `PyPath`.
*/
module UnityPort {
  import opened Wrappers
  import opened PyStr
  import PyPath
  import DeviceOutput

  /** The line the Unity importer logs when a model loaded. */
  const SuccessMessage: string := "Model loaded and worker created successfully."
  /** How the Unity importer's failure lines begin. */
  const ErrorPrefix: string := "Failed to load ONNX model:"

  const WindowsLogTail: string := "\\AppData\\Local\\Unity\\Editor\\Editor.log"
  const DarwinLogTail: string := "/Library/Logs/Unity/Editor.log"
  const UnsupportedOs: string := "Unsupported OS"

  /** The default `unity_model_dir` of `copy_model_to_unity`. */
  const DefaultUnityModelDir: string := "unity_nn/Assets/NN/Models"

  /** What the interpreter is told about the machine it runs on. */
  datatype Host = Host(
    system: string,                 // platform.system()
    env: string -> Option<string>,  // os.environ
    home: Option<string>)           // the home directory expanduser finds (HOME, else the password database); None when neither has it

  // ---------------------------------------------------------------------
  // get_unity_log_path
  // ---------------------------------------------------------------------

  /**
    `get_unity_log_path()`: the Editor log under `%USERPROFILE%` on Windows
    (left unexpanded when that variable is not set, as `expandvars` does),
    under the home directory on macOS (with `~` left in place when there is
    none, as `expanduser` does), and a `RuntimeError` anywhere else.
  */
  function UnityLogPath(h: Host): Result<string> {
    if h.system == "Windows" then
      Ok(match h.env("USERPROFILE")
         case Some(profile) => profile + WindowsLogTail
         case None => "%USERPROFILE%" + WindowsLogTail)
    else if h.system == "Darwin" then
      Ok(match h.home
         case Some(home) => PyPath.RStripSlashes(home) + DarwinLogTail
         case None => "~" + DarwinLogTail)
    else Err(UnsupportedOs)
  }

  /**
    A path is found exactly on Windows and macOS, and it names the Editor log
    of that system; on macOS it sits in the home directory.
  */
  lemma UnityLogPathCases(h: Host)
    ensures UnityLogPath(h).Ok? <==> h.system == "Windows" || h.system == "Darwin"
    ensures UnityLogPath(h).Err? ==> UnityLogPath(h).message == "Unsupported OS"
    ensures h.system == "Windows" ==> EndsWith(UnityLogPath(h).value, WindowsLogTail)
    ensures h.system == "Darwin" ==> EndsWith(UnityLogPath(h).value, DarwinLogTail)
    ensures h.system == "Darwin" && h.home.Some? && h.home.value != "" && h.home.value[|h.home.value| - 1] != '/' ==>
              UnityLogPath(h).value == h.home.value + DarwinLogTail
  {
    if h.system == "Windows" {
      match h.env("USERPROFILE")
      case Some(profile) => EndsWithAppended(profile, WindowsLogTail);
      case None => EndsWithAppended("%USERPROFILE%", WindowsLogTail);
    } else if h.system == "Darwin" {
      match h.home
      case Some(home) => EndsWithAppended(PyPath.RStripSlashes(home), DarwinLogTail);
      case None => EndsWithAppended("~", DarwinLogTail);
    }
  }

  // ---------------------------------------------------------------------
  // copy_model_to_unity
  // ---------------------------------------------------------------------

  /** `dest_path` of `copy_model_to_unity`: the model directory joined with the file's basename. */
  function UnityDestination(onnxFile: string, unityModelDir: string): string {
    PyPath.Join(unityModelDir, PyPath.Basename(onnxFile))
  }

  /**
    The copy keeps the file's name and lands directly in the model
    directory, wherever the source file was.
  */
  lemma DestinationKeepsName(onnxFile: string, unityModelDir: string)
    ensures PyPath.Basename(UnityDestination(onnxFile, unityModelDir)) == PyPath.Basename(onnxFile)
    ensures PyPath.DirShape(unityModelDir) && PyPath.Basename(onnxFile) != "" ==>
              PyPath.Dirname(UnityDestination(onnxFile, unityModelDir)) == unityModelDir
  {
    var name := PyPath.Basename(onnxFile);
    PyPath.BasenameOfJoin(unityModelDir, name);
    if PyPath.DirShape(unityModelDir) && name != "" {
      PyPath.DirnameOfJoin(unityModelDir, name);
    }
  }

  /** The default model directory is a proper directory name, so the rule above applies to it. */
  lemma DefaultDirShape()
    ensures PyPath.DirShape(DefaultUnityModelDir)
  {
  }

  // ---------------------------------------------------------------------
  // check_onnx_log_messages
  // ---------------------------------------------------------------------

  /** A line that sets `found_success`. */
  predicate IsSuccessLine(line: string) {
    Contains(line, SuccessMessage)
  }

  /** A line that sets `found_error`: the `elif` only sees lines without the success message. */
  predicate IsErrorLine(line: string) {
    !Contains(line, SuccessMessage) && Contains(line, ErrorPrefix)
  }

  /** The stripped text of the last line `isError` accepts, None when there is none. */
  function LastDetail(lines: seq<string>, isError: string -> bool): Option<string> {
    var i := DeviceOutput.LastIndex(lines, isError);
    if i < 0 then None else Some(Strip(lines[i]))
  }

  /** What scanning the log leaves in `found_success`, `found_error` and `error_detail`. */
  datatype Scan = Scan(foundSuccess: bool, foundError: bool, errorDetail: Option<string>)

  /** The flags and the detail for the lines of a log, for any classification of its lines. */
  function ScanOf(lines: seq<string>, isSuccess: string -> bool, isError: string -> bool): Scan {
    Scan(exists i :: 0 <= i < |lines| && isSuccess(lines[i]),
         exists i :: 0 <= i < |lines| && isError(lines[i]),
         LastDetail(lines, isError))
  }

  /** The flags and the detail for the lines of a log, as properties of the lines. */
  function Scanned(lines: seq<string>): Scan {
    ScanOf(lines, IsSuccessLine, IsErrorLine)
  }

  /** Reading one more line sets the flags its classification calls for; an error line replaces the detail. */
  lemma ScanOfSnoc(front: seq<string>, line: string, isSuccess: string -> bool, isError: string -> bool)
    ensures var before := ScanOf(front, isSuccess, isError);
            ScanOf(front + [line], isSuccess, isError) ==
              Scan(before.foundSuccess || isSuccess(line), before.foundError || isError(line),
                   if isError(line) then Some(Strip(line)) else before.errorDetail)
  {
    var lines := front + [line];
    assert forall k :: 0 <= k < |front| ==> lines[k] == front[k];
    assert lines[|front|] == line;
    assert lines[..|lines| - 1] == front;
  }

  /** The `for line in f` loop of `check_onnx_log_messages`, over the lines as Python iterates them (newlines kept). */
  method ScanLog(lines: seq<string>) returns (scan: Scan)
    ensures scan == Scanned(lines)
  {
    var foundSuccess := false;
    var foundError := false;
    var errorDetail: Option<string> := None;
    var i := 0;
    while i < |lines|
      invariant 0 <= i <= |lines|
      invariant Scan(foundSuccess, foundError, errorDetail) == Scanned(lines[..i])
    {
      var line := lines[i];
      assert lines[..i + 1] == lines[..i] + [line];
      ScanOfSnoc(lines[..i], line, IsSuccessLine, IsErrorLine);
      if Contains(line, SuccessMessage) {
        foundSuccess := true;
      } else if Contains(line, ErrorPrefix) {
        foundError := true;
        errorDetail := Some(Strip(line));
      }
      i := i + 1;
    }
    assert lines[..i] == lines;
    scan := Scan(foundSuccess, foundError, errorDetail);
  }

  /**
    `error_detail` is the stripped text of the LAST line that has the error
    prefix and not the success message, and it is set exactly when
    `found_error` is.
  */
  lemma ErrorDetailIsLast(lines: seq<string>)
    ensures Scanned(lines).errorDetail.Some? <==> Scanned(lines).foundError
    ensures Scanned(lines).errorDetail.Some? ==>
              exists i :: 0 <= i < |lines| && IsErrorLine(lines[i]) && Scanned(lines).errorDetail.value == Strip(lines[i]) &&
                          forall j :: i < j < |lines| ==> !IsErrorLine(lines[j])
  {
    var i := DeviceOutput.LastIndex(lines, IsErrorLine);
    if i >= 0 {
      assert IsErrorLine(lines[i]);
    } else {
      assert forall j :: 0 <= j < |lines| ==> !IsErrorLine(lines[j]);
    }
  }

  /** A line with both the success message and the error prefix counts only as a success. */
  lemma SuccessWinsOnOneLine(line: string)
    requires Contains(line, SuccessMessage) && Contains(line, ErrorPrefix)
    ensures Scanned([line]) == Scan(true, false, None)
  {
    assert IsSuccessLine([line][0]);
    assert DeviceOutput.LastIndex([line][..0], IsErrorLine) == -1;
  }

  /** The lines printed after the scan. */
  const StatusHeader: string := "\n=== ONNX Loader Status ==="
  const SuccessReport: string := "Success: ONNX model loaded and worker created."
  const NoMessagesReport: string := "No ONNX loader messages found in the log."

  /** `str(error_detail)`. */
  function DetailText(detail: Option<string>): string {
    match detail
    case Some(d) => d
    case None => "None"
  }

  /** The four kinds of line the report can print. */
  datatype ReportLine = Header | SuccessLine | ErrorLine(detail: Option<string>) | NoMessagesLine

  /** The text of a report line; `print("Error detected:", d)` puts one space between its arguments. */
  function LineText(l: ReportLine): string {
    match l
    case Header => StatusHeader
    case SuccessLine => SuccessReport
    case ErrorLine(d) => "Error detected: " + DetailText(d)
    case NoMessagesLine => NoMessagesReport
  }

  /** What `check_onnx_log_messages` reports once it has scanned the log. */
  function Report(scan: Scan): seq<ReportLine> {
    [Header] +
    (if scan.foundSuccess then [SuccessLine] else []) +
    (if scan.foundError then [ErrorLine(scan.errorDetail)] else []) +
    (if !scan.foundSuccess && !scan.foundError then [NoMessagesLine] else [])
  }

  /** The lines printed for a report. */
  function Printed(report: seq<ReportLine>): (out: seq<string>)
    ensures |out| == |report| && forall i :: 0 <= i < |report| ==> out[i] == LineText(report[i])
  {
    if report == [] then [] else [LineText(report[0])] + Printed(report[1..])
  }

  /**
    The report always starts with the header; it says success exactly when
    the flag is set, reports the detail exactly when an error was found, and
    says that there were no loader messages exactly when neither was.
  */
  lemma ReportLines(scan: Scan)
    ensures Report(scan)[0] == Header
    ensures SuccessLine in Report(scan) <==> scan.foundSuccess
    ensures ErrorLine(scan.errorDetail) in Report(scan) <==> scan.foundError
    ensures NoMessagesLine in Report(scan) <==> !scan.foundSuccess && !scan.foundError
  {
  }

  /** One log can be reported both as a success and as an error: the two flags are not exclusive. */
  lemma SuccessAndErrorTogether()
    ensures var scan := Scanned([SuccessMessage, ErrorPrefix]);
            scan.foundSuccess && scan.foundError &&
            SuccessLine in Report(scan) && ErrorLine(scan.errorDetail) in Report(scan)
  {
    var lines := [SuccessMessage, ErrorPrefix];
    assert IsSuccessLine(lines[0]) by {
      assert OccursAt(SuccessMessage, SuccessMessage, 0);
    }
    assert IsErrorLine(lines[1]) by {
      assert OccursAt(ErrorPrefix, ErrorPrefix, 0);
      assert |ErrorPrefix| < |SuccessMessage|;
    }
    ReportLines(Scanned(lines));
  }

  /**
    The log seen through the file system: whether `exists` holds for a path,
    and what `open` gives there: the file's lines, or the message of the
    exception it raises (a directory, a file that may not be read).
  */
  datatype LogFiles = LogFiles(present: string -> bool, reading: string -> Result<seq<string>>)

  /**
    `check_onnx_log_messages()`: fails where `get_unity_log_path` raises;
    prints only a not-found line, reading nothing, when the log is missing;
    fails, printing nothing, when the path exists but cannot be opened;
    otherwise scans the log and prints the report.
  */
  method CheckOnnxLogMessages(h: Host, files: LogFiles) returns (printed: Result<seq<string>>)
    ensures UnityLogPath(h).Err? ==> printed == Err(UnityLogPath(h).message)
    ensures UnityLogPath(h).Ok? && !files.present(UnityLogPath(h).value) ==>
              printed == Ok(["Unity log file not found at: " + UnityLogPath(h).value])
    ensures UnityLogPath(h).Ok? && files.present(UnityLogPath(h).value) && files.reading(UnityLogPath(h).value).Err? ==>
              printed == Err(files.reading(UnityLogPath(h).value).message)
    ensures UnityLogPath(h).Ok? && files.present(UnityLogPath(h).value) && files.reading(UnityLogPath(h).value).Ok? ==>
              printed == Ok(Printed(Report(Scanned(files.reading(UnityLogPath(h).value).value))))
  {
    var logPath := UnityLogPath(h);
    if logPath.Err? {
      return Err(logPath.message);
    }
    if !files.present(logPath.value) {
      return Ok(["Unity log file not found at: " + logPath.value]);
    }
    var log := files.reading(logPath.value);
    if log.Err? {
      return Err(log.message);
    }
    var scan := ScanLog(log.value);
    printed := Ok(Printed(Report(scan)));
  }
}
