/**
 * The agent's task handling: the command-line check, one poll round over the
 * tasks the server hands out (tasks without a file name are skipped), and the
 * processing of one task — thorough or default scan with the fallback from a
 * clean thorough result, then the report sent back to the server.
 *
 * The payload download, the AMSI scan, the report upload and the clock are
 * inputs: `payload`, `amsi`, `updateTask` and `now`.
 */
module Program {
  import opened Wrappers
  import Base64
  import opened Defender

  /** `TaskStatusEnum.Completed.ToString()`. */
  const CompletedStatus: string := "Completed"
  /** The endpoint polled for new tasks. */
  const TasksEndpoint: string := "/tasks/get"

  /** A task as the server sends it; a file name may be null. */
  datatype IncomingTask = IncomingTask(
    uuid: string,
    taskStatus: string,
    timeSent: int,
    timeUpdated: int,
    fileSha256: string,
    fileName: Option<string>,
    enableStaticAnalysis: bool,
    enableDynamicAnalysis: bool,
    enableThoroughDefender: bool)

  /** The report the agent sends back. */
  datatype OutgoingTask = OutgoingTask(
    uuid: string,
    taskStatus: string,
    timeSent: int,
    timeUpdated: int,
    fileSha256: string,
    fileName: Option<string>,
    enableThoroughDefender: bool,
    amsiResult: string,
    defenderResult: string,
    defenderThreats: seq<string>,
    zeroXBase64MaliciousBytes: string,
    xyBase64MaliciousBytes: string,
    listOfMaliciousBytes: seq<string>)

  /** The server URL: the first argument, if there is one. */
  function ServerUrl(args: seq<string>): (url: Option<string>)
    ensures url.None? <==> |args| < 1
    ensures url.Some? ==> url.value == args[0]
  {
    if |args| < 1 then None else Some(args[0])
  }

  /** The task list of a poll: a response that does not deserialise gives no tasks. */
  function GetTasks(deserialized: Option<seq<IncomingTask>>): (tasks: seq<IncomingTask>)
    ensures deserialized.None? ==> tasks == []
    ensures deserialized.Some? ==> tasks == deserialized.value
  {
    if deserialized.None? then [] else deserialized.value
  }

  /** `!String.IsNullOrEmpty(task.FileName)`. */
  predicate HasFileName(task: IncomingTask) {
    task.fileName.Some? && |task.fileName.value| > 0
  }

  /** The scan a task gets: thorough when asked for, replaced by the default scan when the thorough one comes back clean. */
  function SelectScan(engine: Engine, payload: seq<byte>, thorough: bool): DefenderScanModel {
    if thorough then
      var t := ThoroughScan(engine, payload);
      if t.resultTitle == NotDetected then DefaultScan(engine, payload) else t
    else DefaultScan(engine, payload)
  }

  /**
   * Without thorough mode only the default scan runs; in thorough mode the
   * thorough result is kept exactly when it found a range, and otherwise is
   * replaced entirely (threat names included) by the default scan.
   */
  lemma SelectScanModes(engine: Engine, payload: seq<byte>, thorough: bool)
    ensures !thorough ==> SelectScan(engine, payload, thorough) == DefaultScan(engine, payload)
    ensures thorough && ThoroughRanges(engine, payload) == [] ==>
      SelectScan(engine, payload, thorough) == DefaultScan(engine, payload)
    ensures thorough && ThoroughRanges(engine, payload) != [] ==>
      SelectScan(engine, payload, thorough) == ThoroughScan(engine, payload)
      && SelectScan(engine, payload, thorough).resultTitle == ThreatDetected
  {
    ThoroughScanResult(engine, payload);
  }

  /** The base64 text of an optional byte array: "" for null. */
  function Base64OrEmpty(bytes: Option<seq<byte>>): (s: string)
    ensures bytes.None? ==> s == ""
    ensures bytes.Some? ==> Base64.Decode(s) == Some(bytes.value)
  {
    if bytes.None? then ""
    else
      Base64.DecodeEncode(bytes.value);
      Base64.Encode(bytes.value)
  }

  /** The report of a task given the chosen scan, the AMSI verdict and the time. */
  function Report(task: IncomingTask, scan: DefenderScanModel, amsiResult: string, now: int): OutgoingTask {
    OutgoingTask(
      task.uuid, CompletedStatus, task.timeSent, now, task.fileSha256, task.fileName,
      task.enableThoroughDefender, amsiResult, scan.resultTitle.Name(), scan.threatNames,
      Base64OrEmpty(scan.zeroXMaliciousBytes), Base64OrEmpty(scan.xyMaliciousBytes),
      scan.base64MaliciousRegions)
  }

  /** What one task's processing sends: nothing when the payload could not be fetched. */
  function ReportOf(task: IncomingTask, payload: Option<seq<byte>>, engine: Engine, amsi: seq<byte> -> string, now: int): Option<OutgoingTask> {
    if payload.None? then None
    else Some(Report(task, SelectScan(engine, payload.value, task.enableThoroughDefender), amsi(payload.value), now))
  }

  /** Whether one task's processing succeeds: the update call's answer, or false without a payload. */
  function Outcome(task: IncomingTask, payload: Option<seq<byte>>, engine: Engine, amsi: seq<byte> -> string,
                   updateTask: OutgoingTask -> bool, now: int): bool
  {
    var sent := ReportOf(task, payload, engine, amsi, now);
    sent.Some? && updateTask(sent.value)
  }

  /**
   * The report is complete, echoes the task's identity and carries the chosen
   * scan: its title, its threat names and its regions, with the zero-x and
   * x-y bytes as base64 ("" when null) that decodes back to those bytes.
   */
  lemma ReportContents(task: IncomingTask, payload: seq<byte>, engine: Engine, amsi: seq<byte> -> string, now: int)
    ensures var r := ReportOf(task, Some(payload), engine, amsi, now).value;
      var scan := SelectScan(engine, payload, task.enableThoroughDefender);
      && r.taskStatus == CompletedStatus
      && r.uuid == task.uuid && r.timeSent == task.timeSent && r.fileSha256 == task.fileSha256
      && r.fileName == task.fileName && r.enableThoroughDefender == task.enableThoroughDefender
      && r.timeUpdated == now && r.amsiResult == amsi(payload)
      && r.defenderResult == scan.resultTitle.Name() && r.defenderThreats == scan.threatNames
      && r.listOfMaliciousBytes == scan.base64MaliciousRegions
      && (scan.zeroXMaliciousBytes.None? ==> r.zeroXBase64MaliciousBytes == "")
      && (scan.zeroXMaliciousBytes.Some? ==> Base64.Decode(r.zeroXBase64MaliciousBytes) == scan.zeroXMaliciousBytes)
      && (scan.xyMaliciousBytes.Some? ==> Base64.Decode(r.xyBase64MaliciousBytes) == scan.xyMaliciousBytes)
      && (scan.xyMaliciousBytes.None? ==> r.xyBase64MaliciousBytes == "")
  {
  }

  /** Processes one task: scan the payload, assemble the report and send it. */
  method ProcessTask(task: IncomingTask, payload: Option<seq<byte>>, engine: Engine, amsi: seq<byte> -> string,
                     updateTask: OutgoingTask -> bool, now: int) returns (ok: bool, sent: Option<OutgoingTask>)
    ensures sent == ReportOf(task, payload, engine, amsi, now)
    ensures ok == Outcome(task, payload, engine, amsi, updateTask, now)
    ensures payload.None? ==> !ok && sent.None?
    ensures sent.Some? ==> ok == updateTask(sent.value)
  {
    if payload.None? {
      return false, None;
    }
    var bytes := payload.value;
    var defenderScan: DefenderScanModel;
    ghost var scanned: seq<nat>;
    if task.enableThoroughDefender {
      defenderScan := GetThoroughDefenderScanResults(engine, bytes);
      if defenderScan.resultTitle == NotDetected {
        defenderScan, scanned := GetDefaultDefenderScanResults(engine, bytes);
      }
    } else {
      defenderScan, scanned := GetDefaultDefenderScanResults(engine, bytes);
    }
    var amsiResult := amsi(bytes);
    var zeroXbase64MaliciousBytes := "";
    var xyBase64MaliciousBytes := "";
    if defenderScan.zeroXMaliciousBytes.Some? {
      zeroXbase64MaliciousBytes := Base64.Encode(defenderScan.zeroXMaliciousBytes.value);
    }
    if defenderScan.xyMaliciousBytes.Some? {
      xyBase64MaliciousBytes := Base64.Encode(defenderScan.xyMaliciousBytes.value);
    }
    var outgoingTask := OutgoingTask(
      task.uuid, CompletedStatus, task.timeSent, now, task.fileSha256, task.fileName,
      task.enableThoroughDefender, amsiResult, defenderScan.resultTitle.Name(), defenderScan.threatNames,
      zeroXbase64MaliciousBytes, xyBase64MaliciousBytes, defenderScan.base64MaliciousRegions);
    sent := Some(outgoingTask);
    ok := updateTask(outgoingTask);
  }

  /** The tasks of a round that get processed: those with a file name, in order. */
  function TasksWithFileName(tasks: seq<IncomingTask>): (r: seq<IncomingTask>)
    ensures |r| <= |tasks|
  {
    if tasks == [] then []
    else
      var rest := TasksWithFileName(tasks[1..]);
      if HasFileName(tasks[0]) then [tasks[0]] + rest else rest
  }

  /** Exactly the tasks with a file name are processed. */
  lemma {:induction false} TasksWithFileNameSpec(tasks: seq<IncomingTask>)
    ensures forall t :: t in TasksWithFileName(tasks) <==> t in tasks && HasFileName(t)
  {
    if tasks != [] {
      TasksWithFileNameSpec(tasks[1..]);
      assert tasks == [tasks[0]] + tasks[1..];
    }
  }

  lemma TasksWithFileNameStep(tasks: seq<IncomingTask>, i: nat)
    requires i < |tasks|
    ensures TasksWithFileName(tasks[i..]) == (if HasFileName(tasks[i]) then [tasks[i]] else []) + TasksWithFileName(tasks[i + 1..])
  {
    assert tasks[i..][0] == tasks[i];
    assert tasks[i..][1..] == tasks[i + 1..];
  }

  /**
   * One poll round: the tasks of the response are visited in order, the ones
   * without a file name skipped, every other one processed. `processed` lists
   * the processed tasks and `outcomes` their results.
   */
  method PollRound(deserialized: Option<seq<IncomingTask>>, payloads: IncomingTask -> Option<seq<byte>>, engine: Engine,
                   amsi: seq<byte> -> string, updateTask: OutgoingTask -> bool, now: int)
    returns (processed: seq<IncomingTask>, outcomes: seq<bool>)
    ensures processed == TasksWithFileName(GetTasks(deserialized))
    ensures |outcomes| == |processed|
    ensures forall i | 0 <= i < |processed| :: outcomes[i] == Outcome(processed[i], payloads(processed[i]), engine, amsi, updateTask, now)
  {
    var tasks := GetTasks(deserialized);
    processed, outcomes := [], [];
    var i := 0;
    while i < |tasks|
      invariant 0 <= i <= |tasks|
      invariant TasksWithFileName(tasks) == processed + TasksWithFileName(tasks[i..])
      invariant |outcomes| == |processed|
      invariant forall k | 0 <= k < |processed| :: outcomes[k] == Outcome(processed[k], payloads(processed[k]), engine, amsi, updateTask, now)
    {
      var task := tasks[i];
      TasksWithFileNameStep(tasks, i);
      if HasFileName(task) {
        var ok, _ := ProcessTask(task, payloads(task), engine, amsi, updateTask, now);
        assert processed + ([task] + TasksWithFileName(tasks[i + 1..])) == (processed + [task]) + TasksWithFileName(tasks[i + 1..]);
        processed := processed + [task];
        outcomes := outcomes + [ok];
      } else {
        assert [] + TasksWithFileName(tasks[i + 1..]) == TasksWithFileName(tasks[i + 1..]);
      }
      i := i + 1;
    }
    assert tasks[i..] == [];
  }
}
