/**
 * The byte-region localisation of the scanning agent: how one run of the
 * antivirus command-line scanner is classified, the default scan over growing
 * 1024-byte prefixes that stops at the first detection, the thorough scan over
 * 8198-byte prefixes whose start/end state machine records at most two
 * malicious ranges, and the heuristic that cuts a context window out of the
 * last scanned prefix.
 *
 * The scanner itself is an oracle: `engine(bytes)` is the exit code and the
 * standard output of one scan of a file holding exactly `bytes`.
 */
module Defender {
  import opened Wrappers
  import opened Text
  import Base64
  import opened Collections

  type byte = Base64.byte

  /** Prefix step of the thorough scan. */
  const ThoroughIncrementSize: nat := 8198
  /** Prefix step of the default scan. */
  const DefaultIncrementSize: nat := 1024
  /** `Environment.NewLine` on Windows, the only platform the scanner runs on. */
  const NewLine: string := "\r\n"
  /** The marker of the scanner's output line that names the threat. */
  const ThreatMarker: string := "Threat  "
  /** The space-separated field of that line that holds the threat name. */
  const ThreatField: nat := 19

  /** The result codes of a scan; `Name` is the string the agent reports. */
  datatype ResultTitle = NotDetected | ThreatDetected | Error | NotCompleted {
    function Name(): string {
      match this
      case NotDetected => "DEFENDER_RESULT_NOT_DETECTED"
      case ThreatDetected => "DEFENDER_RESULT_THREAT_DETECTED"
      case Error => "DEFENDER_RESULT_ERROR"
      case NotCompleted => "DEFENDER_RESULT_NOT_COMPLETED"
    }
  }

  /** What one scanner process leaves behind: its exit code and its standard output. */
  datatype EngineRun = EngineRun(exitCode: int, stdout: string)

  /** The scanner as an oracle over the bytes of the scanned file. */
  type Engine = seq<byte> -> EngineRun

  /** A half-open byte range `[start, end)` of the payload. */
  datatype Range = Range(start: int, end: int)

  /** The scan record; byte arrays that may be null are options. */
  datatype DefenderScanModel = DefenderScanModel(
    resultTitle: ResultTitle,
    threatNames: seq<string>,
    zeroXMaliciousBytes: Option<seq<byte>>,
    xyMaliciousBytes: Option<seq<byte>>,
    base64MaliciousRegions: seq<string>)

  /** The record both drivers start from. */
  const NotCompletedModel := DefenderScanModel(NotCompleted, [], None, None, [])

  // ---------------------------------------------------------------------------
  // One scanner run

  /** Exit code 0 is clean, 2 is a detection, anything else (a timeout kill included) an error. */
  function TitleOfExitCode(exitCode: int): (t: ResultTitle)
    ensures t == NotDetected <==> exitCode == 0
    ensures t == ThreatDetected <==> exitCode == 2
    ensures t == Error <==> exitCode != 0 && exitCode != 2
  {
    if exitCode == 0 then NotDetected else if exitCode == 2 then ThreatDetected else Error
  }

  /** An output line that carries a threat name: it has the marker and more than 19 space-separated fields. */
  predicate NamesThreat(line: string) {
    Contains(line, ThreatMarker) && |Split(line, " ")| > ThreatField
  }

  /** The threat name of the first line that carries one, or "" when none does. */
  function ThreatNameOf(lines: seq<string>): string
    decreases |lines|
  {
    if |lines| == 0 then ""
    else if NamesThreat(lines[0]) then Split(lines[0], " ")[ThreatField]
    else ThreatNameOf(lines[1..])
  }

  /** The name is "" when no line carries one, and otherwise field 19 of the first line that does. */
  lemma {:induction false} ThreatNameOfFirst(lines: seq<string>)
    ensures (forall i | 0 <= i < |lines| :: !NamesThreat(lines[i])) ==> ThreatNameOf(lines) == ""
    ensures forall i | 0 <= i < |lines| && NamesThreat(lines[i]) && (forall j | 0 <= j < i :: !NamesThreat(lines[j]))
      :: ThreatNameOf(lines) == Split(lines[i], " ")[ThreatField]
    decreases |lines|
  {
    if |lines| > 0 && !NamesThreat(lines[0]) {
      ThreatNameOfFirst(lines[1..]);
      assert forall i | 1 <= i < |lines| :: lines[i] == lines[1..][i - 1];
    }
  }

  /** The record one scanner run yields: its title and exactly one threat name. */
  function ScanModelOf(run: EngineRun): DefenderScanModel {
    DefenderScanModel(TitleOfExitCode(run.exitCode), [ThreatNameOf(Split(run.stdout, NewLine))], None, None, [])
  }

  /** Reads the threat name off the scanner's output, stopping at the first line that carries one. */
  method ParseThreatName(output: string) returns (threatName: string)
    ensures threatName == ThreatNameOf(Split(output, NewLine))
  {
    var lines := Split(output, NewLine);
    threatName := "";
    var i := 0;
    ThreatNameOfFirst(lines);
    while i < |lines|
      invariant 0 <= i <= |lines|
      invariant forall j | 0 <= j < i :: !NamesThreat(lines[j])
    {
      if Contains(lines[i], ThreatMarker) {
        var sig := Split(lines[i], " ");
        if |sig| > ThreatField {
          threatName := sig[ThreatField];
          return;
        }
      }
      i := i + 1;
    }
  }

  /** One scan of a file holding `bytes`. */
  method ScanFileWithDefender(engine: Engine, bytes: seq<byte>) returns (m: DefenderScanModel)
    ensures m == ScanModelOf(engine(bytes))
  {
    var run := engine(bytes);
    var threatName := ParseThreatName(run.stdout);
    m := DefenderScanModel(TitleOfExitCode(run.exitCode), [threatName], None, None, []);
  }

  // ---------------------------------------------------------------------------
  // The context window

  function Max(a: int, b: int): int { if a < b then b else a }

  /**
   * The window heuristic: `upper` is the prefix length less one step plus half
   * a step, `lower` one and a half steps before it, clamped at 0. A null chunk,
   * or an `upper` of 0, gives null; a window reaching past the chunk (only
   * possible for chunks shorter than half a step) makes the copy throw.
   */
  function GetXyBytes(chunk: Option<seq<byte>>, chunkSize: nat): (r: Result<Option<seq<byte>>>)
    ensures chunk.None? ==> r == Success(None)
    ensures chunk.Some? && Max(0, |chunk.value| - chunkSize) + chunkSize / 2 == 0 ==> r == Success(None)
    ensures r.Failure? <==> chunk.Some? && |chunk.value| < chunkSize / 2
    ensures chunk.Some? && chunkSize <= |chunk.value| < 2 * chunkSize && |chunk.value| - chunkSize + chunkSize / 2 > 0
      ==> r == Success(Some(chunk.value[..|chunk.value| - chunkSize + chunkSize / 2]))
    ensures chunk.Some? && 2 * chunkSize <= |chunk.value| && |chunk.value| - chunkSize + chunkSize / 2 > 0
      ==> r == Success(Some(chunk.value[|chunk.value| - 2 * chunkSize..|chunk.value| - chunkSize + chunkSize / 2]))
    ensures r.Success? && r.value.Some? ==> |r.value.value| <= chunkSize + chunkSize / 2
  {
    if chunk.None? then Success(None)
    else
      var bytes := chunk.value;
      var upper := Max(0, |bytes| - chunkSize) + chunkSize / 2;
      var lower := Max(0, upper - chunkSize);
      if upper == 0 then Success(None)
      else
        var lower' := if lower - chunkSize / 2 < 0 then 0 else lower - chunkSize / 2;
        if upper > |bytes| then Failure("ArgumentException: source array was not long enough")
        else Success(Some(bytes[lower'..upper]))
  }

  /** The window of a chunk that is at least half a step long (the copy cannot throw). */
  function XyWindow(chunk: Option<seq<byte>>, chunkSize: nat): Option<seq<byte>>
    requires chunk.None? || |chunk.value| >= chunkSize / 2
  {
    GetXyBytes(chunk, chunkSize).value
  }

  // ---------------------------------------------------------------------------
  // Scans at prefix boundaries

  /** The scan of the prefix of length `len`. */
  function ScanAt(engine: Engine, fileBytes: seq<byte>, len: nat): DefenderScanModel
    requires len <= |fileBytes|
  {
    ScanModelOf(engine(fileBytes[..len]))
  }

  /** The title of the scan of the prefix of length `len`. */
  function TitleAt(engine: Engine, fileBytes: seq<byte>, len: nat): ResultTitle
    requires len <= |fileBytes|
  {
    TitleOfExitCode(engine(fileBytes[..len]).exitCode)
  }

  predicate DetectedAt(engine: Engine, fileBytes: seq<byte>, len: nat) {
    len <= |fileBytes| && TitleAt(engine, fileBytes, len) == ThreatDetected
  }

  predicate CleanAt(engine: Engine, fileBytes: seq<byte>, len: nat) {
    len <= |fileBytes| && TitleAt(engine, fileBytes, len) == NotDetected
  }

  predicate ErrorAt(engine: Engine, fileBytes: seq<byte>, len: nat) {
    len <= |fileBytes| && TitleAt(engine, fileBytes, len) == Error
  }

  // ---------------------------------------------------------------------------
  // Default scan

  /** The default scan loop from prefix length `chunkSize` on, holding `scanResult` so far. */
  function DefaultLoop(engine: Engine, fileBytes: seq<byte>, chunkSize: nat, scanResult: DefenderScanModel): DefenderScanModel
    requires chunkSize >= DefaultIncrementSize
    decreases |fileBytes| + DefaultIncrementSize - chunkSize
  {
    if chunkSize > |fileBytes| then scanResult
    else
      var chunk := fileBytes[..chunkSize];
      var m := ScanModelOf(engine(chunk));
      if m.resultTitle == ThreatDetected then
        m.(zeroXMaliciousBytes := Some(chunk), xyMaliciousBytes := XyWindow(Some(chunk), DefaultIncrementSize))
      else DefaultLoop(engine, fileBytes, chunkSize + DefaultIncrementSize, m)
  }

  /** The result of the default scan of `fileBytes`. */
  function DefaultScan(engine: Engine, fileBytes: seq<byte>): DefenderScanModel {
    DefaultLoop(engine, fileBytes, DefaultIncrementSize, NotCompletedModel)
  }

  /** The record of a detection at prefix length `len`: the scan, its prefix and its window. */
  function DetectionRecord(engine: Engine, fileBytes: seq<byte>, len: nat): DefenderScanModel
    requires DefaultIncrementSize <= len <= |fileBytes|
  {
    ScanAt(engine, fileBytes, len).(
      zeroXMaliciousBytes := Some(fileBytes[..len]),
      xyMaliciousBytes := XyWindow(Some(fileBytes[..len]), DefaultIncrementSize))
  }

  lemma {:induction false} DefaultLoopDetected(engine: Engine, fileBytes: seq<byte>, chunkSize: nat, acc: DefenderScanModel, k: nat)
    requires chunkSize >= DefaultIncrementSize && chunkSize % DefaultIncrementSize == 0
    requires chunkSize <= k * DefaultIncrementSize <= |fileBytes| && DetectedAt(engine, fileBytes, k * DefaultIncrementSize)
    requires forall j | chunkSize <= j * DefaultIncrementSize < k * DefaultIncrementSize :: !DetectedAt(engine, fileBytes, j * DefaultIncrementSize)
    ensures DefaultLoop(engine, fileBytes, chunkSize, acc) == DetectionRecord(engine, fileBytes, k * DefaultIncrementSize)
    decreases |fileBytes| - chunkSize
  {
    if chunkSize < k * DefaultIncrementSize {
      var j := chunkSize / DefaultIncrementSize;
      assert j * DefaultIncrementSize == chunkSize;
      assert !DetectedAt(engine, fileBytes, chunkSize);
      DefaultLoopDetected(engine, fileBytes, chunkSize + DefaultIncrementSize, ScanAt(engine, fileBytes, chunkSize), k);
    }
  }

  lemma {:induction false} DefaultLoopClean(engine: Engine, fileBytes: seq<byte>, chunkSize: nat, acc: DefenderScanModel)
    requires chunkSize >= DefaultIncrementSize && chunkSize % DefaultIncrementSize == 0
    requires chunkSize <= |fileBytes| + DefaultIncrementSize
    requires chunkSize > DefaultIncrementSize ==> acc == ScanAt(engine, fileBytes, chunkSize - DefaultIncrementSize)
    requires forall j | chunkSize <= j * DefaultIncrementSize <= |fileBytes| :: !DetectedAt(engine, fileBytes, j * DefaultIncrementSize)
    ensures |fileBytes| < chunkSize ==> DefaultLoop(engine, fileBytes, chunkSize, acc) == acc
    ensures chunkSize <= |fileBytes| ==>
      DefaultLoop(engine, fileBytes, chunkSize, acc) == ScanAt(engine, fileBytes, |fileBytes| / DefaultIncrementSize * DefaultIncrementSize)
    decreases |fileBytes| - chunkSize
  {
    if chunkSize <= |fileBytes| {
      var j := chunkSize / DefaultIncrementSize;
      assert j * DefaultIncrementSize == chunkSize;
      assert !DetectedAt(engine, fileBytes, chunkSize);
      DefaultLoopClean(engine, fileBytes, chunkSize + DefaultIncrementSize, ScanAt(engine, fileBytes, chunkSize));
      if |fileBytes| < chunkSize + DefaultIncrementSize {
        assert |fileBytes| / DefaultIncrementSize * DefaultIncrementSize == chunkSize;
      }
    }
  }

  /**
   * The default scan stops at the first detecting prefix: the result is that
   * scan's record with the prefix itself as zero-x bytes and its window as x-y
   * bytes.
   */
  lemma DefaultScanDetected(engine: Engine, fileBytes: seq<byte>, k: nat)
    requires 1 <= k && k * DefaultIncrementSize <= |fileBytes| && DetectedAt(engine, fileBytes, k * DefaultIncrementSize)
    requires forall j | 1 <= j < k :: !DetectedAt(engine, fileBytes, j * DefaultIncrementSize)
    ensures DefaultScan(engine, fileBytes) == DetectionRecord(engine, fileBytes, k * DefaultIncrementSize)
    ensures DefaultScan(engine, fileBytes).resultTitle == ThreatDetected
  {
    DefaultLoopDetected(engine, fileBytes, DefaultIncrementSize, NotCompletedModel, k);
  }

  /**
   * Without a detection, a file shorter than one step is never scanned and the
   * result is NOT_COMPLETED with nothing else set; otherwise the result is
   * exactly the record of the last scan, the prefix whose length is the
   * largest multiple of 1024 not above the length (the remainder is never
   * scanned, and threat names are not accumulated).
   */
  lemma DefaultScanClean(engine: Engine, fileBytes: seq<byte>)
    requires forall j | 1 <= j <= |fileBytes| / DefaultIncrementSize :: !DetectedAt(engine, fileBytes, j * DefaultIncrementSize)
    ensures |fileBytes| < DefaultIncrementSize ==> DefaultScan(engine, fileBytes) == NotCompletedModel
    ensures |fileBytes| >= DefaultIncrementSize ==>
      DefaultScan(engine, fileBytes) == ScanAt(engine, fileBytes, |fileBytes| / DefaultIncrementSize * DefaultIncrementSize)
    ensures DefaultScan(engine, fileBytes).resultTitle != ThreatDetected
  {
    forall j | DefaultIncrementSize <= j * DefaultIncrementSize <= |fileBytes|
      ensures !DetectedAt(engine, fileBytes, j * DefaultIncrementSize)
    {
      assert 1 <= j <= |fileBytes| / DefaultIncrementSize;
    }
    DefaultLoopClean(engine, fileBytes, DefaultIncrementSize, NotCompletedModel);
    if |fileBytes| >= DefaultIncrementSize {
      assert !DetectedAt(engine, fileBytes, |fileBytes| / DefaultIncrementSize * DefaultIncrementSize);
    }
  }

  /** The default scan, step by step; `scanned` lists the prefix lengths handed to the scanner. */
  method GetDefaultDefenderScanResults(engine: Engine, fileBytes: seq<byte>) returns (scanResult: DefenderScanModel, ghost scanned: seq<nat>)
    ensures scanResult == DefaultScan(engine, fileBytes)
    ensures |scanned| <= |fileBytes| / DefaultIncrementSize
    ensures forall i | 0 <= i < |scanned| :: scanned[i] == (i + 1) * DefaultIncrementSize
    ensures scanResult.resultTitle == ThreatDetected || |scanned| == |fileBytes| / DefaultIncrementSize
  {
    scanResult := NotCompletedModel;
    scanned := [];
    var chunkSize := DefaultIncrementSize;
    while chunkSize <= |fileBytes|
      invariant DefaultIncrementSize <= chunkSize <= |fileBytes| + DefaultIncrementSize
      invariant chunkSize % DefaultIncrementSize == 0
      invariant DefaultLoop(engine, fileBytes, chunkSize, scanResult) == DefaultScan(engine, fileBytes)
      invariant |scanned| == chunkSize / DefaultIncrementSize - 1
      invariant forall i | 0 <= i < |scanned| :: scanned[i] == (i + 1) * DefaultIncrementSize
      decreases |fileBytes| + DefaultIncrementSize - chunkSize
    {
      // The clamp to the file length never fires: the loop guard keeps every
      // prefix within the file, so a trailing partial chunk is not scanned.
      var chunk := fileBytes[..chunkSize];
      scanned := scanned + [chunkSize];
      scanResult := ScanFileWithDefender(engine, chunk);
      if scanResult.resultTitle == ThreatDetected {
        var xy := GetXyBytes(Some(chunk), DefaultIncrementSize);
        scanResult := scanResult.(zeroXMaliciousBytes := Some(chunk), xyMaliciousBytes := xy.value);
        break;
      }
      chunkSize := chunkSize + DefaultIncrementSize;
    }
  }

  // ---------------------------------------------------------------------------
  // Threat-name bookkeeping

  /**
   * The reference definition of the collected names: every non-empty name of
   * `xs` at the position where it first occurs.
   */
  function FirstSightings(xs: seq<string>): seq<string>
    decreases |xs|
  {
    if xs == [] then []
    else
      var init := xs[..|xs| - 1];
      var x := xs[|xs| - 1];
      if x != "" && x !in init then FirstSightings(init) + [x] else FirstSightings(init)
  }

  /** A name is among the first sightings exactly when it is non-empty and occurs. */
  lemma {:induction false} FirstSightingsMember(xs: seq<string>, x: string)
    ensures x in FirstSightings(xs) <==> x != "" && x in xs
    decreases |xs|
  {
    if xs != [] {
      var init := xs[..|xs| - 1];
      assert xs == init + [xs[|xs| - 1]];
      FirstSightingsMember(init, x);
    }
  }

  /** The first sightings hold no name twice and no empty name. */
  lemma {:induction false} FirstSightingsDistinct(xs: seq<string>)
    ensures NoDuplicates(FirstSightings(xs))
    ensures "" !in FirstSightings(xs)
    decreases |xs|
  {
    if xs != [] {
      var init := xs[..|xs| - 1];
      var x := xs[|xs| - 1];
      FirstSightingsDistinct(init);
      FirstSightingsMember(init, x);
      FirstSightingsMember(init, "");
    }
  }

  /** The agent's accumulation: each name not yet collected and not empty is appended. */
  function AddThreatNames(acc: seq<string>, names: seq<string>): seq<string>
    decreases |names|
  {
    if names == [] then acc
    else
      var acc' := if names[0] !in acc && names[0] != "" then acc + [names[0]] else acc;
      AddThreatNames(acc', names[1..])
  }

  /** Accumulating the names of one more scan extends the first sightings by them. */
  lemma {:induction false} AddThreatNamesSightings(xs: seq<string>, names: seq<string>)
    ensures AddThreatNames(FirstSightings(xs), names) == FirstSightings(xs + names)
    decreases |names|
  {
    if names != [] {
      var x := names[0];
      var xs' := xs + [x];
      assert xs'[..|xs'| - 1] == xs;
      FirstSightingsMember(xs, x);
      assert FirstSightings(xs') == if x !in FirstSightings(xs) && x != "" then FirstSightings(xs) + [x] else FirstSightings(xs);
      AddThreatNamesSightings(xs', names[1..]);
      assert xs' + names[1..] == xs + names;
    } else {
      assert xs + names == xs;
    }
  }

  // ---------------------------------------------------------------------------
  // Thorough scan

  /**
   * The thorough scan's loop state. `next` is the prefix length the loop
   * scans next; the other fields are the agent's own variables.
   */
  datatype ThoroughState = ThoroughState(
    scanResult: DefenderScanModel,
    ranges: seq<Range>,
    threatNames: seq<string>,
    lastSeenMaliciousBytes: Option<seq<byte>>,
    foundStart: bool,
    startIndex: int,
    endIndex: int,
    next: nat)

  const ThoroughInitial := ThoroughState(NotCompletedModel, [], [], None, false, 0, 0, ThoroughIncrementSize)

  /**
   * One iteration on prefix `chunk` (of length `st.next`) whose scan is `m`:
   * a detection (re)sets the start one step back, a clean scan after a start
   * sets the end one step back, and a start with a positive end closes a range.
   */
  function ThoroughStep(st: ThoroughState, chunk: seq<byte>, m: DefenderScanModel): ThoroughState {
    var chunkSize := st.next;
    var names := AddThreatNames(st.threatNames, m.threatNames);
    var detected := m.resultTitle == ThreatDetected;
    var foundStart := if detected then true else st.foundStart;
    var startIndex := if detected then chunkSize - ThoroughIncrementSize else st.startIndex;
    var endIndex := if !detected && m.resultTitle == NotDetected && st.foundStart then chunkSize - ThoroughIncrementSize else st.endIndex;
    if foundStart && endIndex > 0 then
      ThoroughState(m, st.ranges + [Range(startIndex, endIndex)], names, Some(chunk), false, 0, 0, chunkSize + ThoroughIncrementSize)
    else
      ThoroughState(m, st.ranges, names, Some(chunk), foundStart, startIndex, endIndex, chunkSize + ThoroughIncrementSize)
  }

  /** The threat names of the scans of the prefixes shorter than `upTo`, in scan order. */
  function NamesBelow(engine: Engine, fileBytes: seq<byte>, upTo: nat): seq<string>
    requires upTo % ThoroughIncrementSize == 0 && ThoroughIncrementSize <= upTo <= |fileBytes| + ThoroughIncrementSize
    decreases upTo
  {
    if upTo == ThoroughIncrementSize then []
    else NamesBelow(engine, fileBytes, upTo - ThoroughIncrementSize) + ScanAt(engine, fileBytes, upTo - ThoroughIncrementSize).threatNames
  }

  /** A step-aligned prefix length. */
  predicate OnStep(len: int) {
    len % ThoroughIncrementSize == 0 && ThoroughIncrementSize <= len
  }

  /** The loop's position, its last scan, the last prefix and the collected names. */
  ghost predicate ProgressOk(engine: Engine, fileBytes: seq<byte>, st: ThoroughState) {
    && OnStep(st.next) && st.next <= |fileBytes| + ThoroughIncrementSize
    && st.scanResult == (if st.next == ThoroughIncrementSize then NotCompletedModel else ScanAt(engine, fileBytes, st.next - ThoroughIncrementSize))
    && st.lastSeenMaliciousBytes == (if st.next == ThoroughIncrementSize then None else Some(fileBytes[..st.next - ThoroughIncrementSize]))
    && st.threatNames == FirstSightings(NamesBelow(engine, fileBytes, st.next))
  }

  /** A closed range: step-aligned, non-empty, and at least one step inside the scanned part and the file. */
  ghost predicate RangeInside(fileLength: int, next: int, r: Range) {
    && r.start % ThoroughIncrementSize == 0 && r.end % ThoroughIncrementSize == 0
    && 0 <= r.start < r.end
    && r.end + 2 * ThoroughIncrementSize <= next
    && r.end + ThoroughIncrementSize <= fileLength
  }

  /** The closed ranges: at most two, each inside, increasing and disjoint. */
  ghost predicate RangesOk(fileLength: int, st: ThoroughState) {
    && |st.ranges| <= 2
    && (forall i | 0 <= i < |st.ranges| :: RangeInside(fileLength, st.next, st.ranges[i]))
    && (forall i | 0 <= i < |st.ranges| - 1 :: st.ranges[i].end < st.ranges[i + 1].start)
  }

  /** Stepping back or forth from a step-aligned length stays step-aligned. */
  lemma StepAligned(c: int)
    requires c % ThoroughIncrementSize == 0
    ensures (c - ThoroughIncrementSize) % ThoroughIncrementSize == 0
    ensures (c + ThoroughIncrementSize) % ThoroughIncrementSize == 0
  {
  }

  /** An open start lies inside the scanned part, after every closed range; the end is always reset. */
  ghost predicate OpenOk(st: ThoroughState) {
    && st.endIndex == 0
    && (!st.foundStart ==> st.startIndex == 0)
    && (st.foundStart ==>
          && st.startIndex % ThoroughIncrementSize == 0 && 0 <= st.startIndex
          && st.startIndex + 2 * ThoroughIncrementSize <= st.next
          && (|st.ranges| > 0 ==> st.ranges[|st.ranges| - 1].end < st.startIndex))
  }

  /** The scans behind each range: detected one step past its start, clean one step past its end, errors in between. */
  ghost predicate RangeWitnessed(engine: Engine, fileBytes: seq<byte>, r: Range) {
    && r.start >= 0 && r.end >= 0
    && DetectedAt(engine, fileBytes, r.start + ThoroughIncrementSize)
    && CleanAt(engine, fileBytes, r.end + ThoroughIncrementSize)
    && forall len | r.start + ThoroughIncrementSize < len < r.end + ThoroughIncrementSize && len % ThoroughIncrementSize == 0
         :: ErrorAt(engine, fileBytes, len)
  }

  ghost predicate WitnessOk(engine: Engine, fileBytes: seq<byte>, st: ThoroughState) {
    && (forall i | 0 <= i < |st.ranges| :: RangeWitnessed(engine, fileBytes, st.ranges[i]))
    && (st.foundStart ==>
          && st.startIndex >= 0
          && DetectedAt(engine, fileBytes, st.startIndex + ThoroughIncrementSize)
          && forall len | st.startIndex + ThoroughIncrementSize < len < st.next && len % ThoroughIncrementSize == 0
               :: ErrorAt(engine, fileBytes, len))
  }

  /** While no range is closed, no detection was followed by a clean scan, and no start means no detection. */
  ghost predicate NoPairOk(engine: Engine, fileBytes: seq<byte>, st: ThoroughState) {
    |st.ranges| == 0 ==>
      && (forall a, b | OnStep(a) && OnStep(b) && a < b < st.next :: !(DetectedAt(engine, fileBytes, a) && CleanAt(engine, fileBytes, b)))
      && (!st.foundStart ==> forall a | OnStep(a) && a < st.next :: !DetectedAt(engine, fileBytes, a))
  }

  ghost predicate ThoroughInv(engine: Engine, fileBytes: seq<byte>, st: ThoroughState) {
    && ProgressOk(engine, fileBytes, st)
    && RangesOk(|fileBytes|, st)
    && OpenOk(st)
    && WitnessOk(engine, fileBytes, st)
    && NoPairOk(engine, fileBytes, st)
  }

  lemma ThoroughInitialInv(engine: Engine, fileBytes: seq<byte>)
    ensures ThoroughInv(engine, fileBytes, ThoroughInitial)
  {
  }

  /** The successor of `st` when the prefix of length `st.next` is scanned. */
  function ThoroughNext(engine: Engine, fileBytes: seq<byte>, st: ThoroughState): ThoroughState
    requires st.next <= |fileBytes|
  {
    ThoroughStep(st, fileBytes[..st.next], ScanAt(engine, fileBytes, st.next))
  }

  lemma StepProgress(engine: Engine, fileBytes: seq<byte>, st: ThoroughState)
    requires ProgressOk(engine, fileBytes, st) && st.next <= |fileBytes|
    ensures ProgressOk(engine, fileBytes, ThoroughNext(engine, fileBytes, st))
  {
    var c := st.next;
    var m := ScanAt(engine, fileBytes, c);
    var st' := ThoroughNext(engine, fileBytes, st);
    assert st'.next == c + ThoroughIncrementSize && OnStep(st'.next);
    assert st'.scanResult == m;
    assert st'.lastSeenMaliciousBytes == Some(fileBytes[..c]);
    assert st'.threatNames == AddThreatNames(st.threatNames, m.threatNames);
    var below := NamesBelow(engine, fileBytes, c);
    assert NamesBelow(engine, fileBytes, c + ThoroughIncrementSize) == below + m.threatNames;
    AddThreatNamesSightings(below, m.threatNames);
  }

  lemma StepRanges(fileLength: int, st: ThoroughState, chunk: seq<byte>, m: DefenderScanModel)
    requires RangesOk(fileLength, st) && OpenOk(st) && OnStep(st.next)
    requires st.foundStart ==> st.startIndex + ThoroughIncrementSize <= fileLength
    requires st.next <= fileLength && |st.ranges| <= 1
    ensures RangesOk(fileLength, ThoroughStep(st, chunk, m)) && OpenOk(ThoroughStep(st, chunk, m))
  {
    var c := st.next;
    var t := m.resultTitle;
    var st' := ThoroughStep(st, chunk, m);
    assert st'.next == c + ThoroughIncrementSize;
    StepAligned(c);
    forall i | 0 <= i < |st.ranges|
      ensures RangeInside(fileLength, st'.next, st.ranges[i])
    {
      assert RangeInside(fileLength, c, st.ranges[i]);
    }
    if t == ThreatDetected {
      assert st'.ranges == st.ranges && st'.foundStart && st'.startIndex == c - ThoroughIncrementSize && st'.endIndex == 0;
      if |st.ranges| > 0 {
        assert RangeInside(fileLength, c, st.ranges[|st.ranges| - 1]);
      }
    } else if t == NotDetected && st.foundStart {
      var r := Range(st.startIndex, c - ThoroughIncrementSize);
      assert st'.ranges == st.ranges + [r] && !st'.foundStart && st'.startIndex == 0 && st'.endIndex == 0;
      assert RangeInside(fileLength, st'.next, r);
    } else {
      assert st'.ranges == st.ranges && st'.foundStart == st.foundStart && st'.startIndex == st.startIndex && st'.endIndex == 0;
    }
  }

  lemma StepWitness(engine: Engine, fileBytes: seq<byte>, st: ThoroughState, m: DefenderScanModel)
    requires OnStep(st.next) && OpenOk(st) && WitnessOk(engine, fileBytes, st)
    requires st.next <= |fileBytes| && m.resultTitle == TitleAt(engine, fileBytes, st.next)
    ensures WitnessOk(engine, fileBytes, ThoroughStep(st, fileBytes[..st.next], m))
  {
    var c := st.next;
    var st' := ThoroughStep(st, fileBytes[..c], m);
    var t := m.resultTitle;
    if t == ThreatDetected {
      assert st'.ranges == st.ranges && st'.foundStart && st'.startIndex == c - ThoroughIncrementSize;
    } else if t == NotDetected && st.foundStart {
      var r := Range(st.startIndex, c - ThoroughIncrementSize);
      assert st'.ranges == st.ranges + [r] && !st'.foundStart;
      assert RangeWitnessed(engine, fileBytes, r);
    } else {
      assert st'.ranges == st.ranges && st'.foundStart == st.foundStart && st'.startIndex == st.startIndex;
      if st.foundStart {
        assert ErrorAt(engine, fileBytes, c);
      }
    }
  }

  lemma StepNoPair(engine: Engine, fileBytes: seq<byte>, st: ThoroughState, m: DefenderScanModel)
    requires OnStep(st.next) && OpenOk(st) && NoPairOk(engine, fileBytes, st)
    requires st.next <= |fileBytes| && m.resultTitle == TitleAt(engine, fileBytes, st.next)
    ensures NoPairOk(engine, fileBytes, ThoroughStep(st, fileBytes[..st.next], m))
  {
    var c := st.next;
    var st' := ThoroughStep(st, fileBytes[..c], m);
    if |st'.ranges| == 0 {
      assert |st.ranges| == 0 && st'.next == c + ThoroughIncrementSize;
      assert st'.foundStart == (st.foundStart || m.resultTitle == ThreatDetected);
      forall a, b | OnStep(a) && OnStep(b) && a < b < st'.next
        ensures !(DetectedAt(engine, fileBytes, a) && CleanAt(engine, fileBytes, b))
      {
        if b == c && CleanAt(engine, fileBytes, c) {
          assert !st.foundStart;
        }
      }
    }
  }

  lemma StepInv(engine: Engine, fileBytes: seq<byte>, st: ThoroughState)
    requires ThoroughInv(engine, fileBytes, st) && st.next <= |fileBytes| && |st.ranges| <= 1
    ensures ThoroughInv(engine, fileBytes, ThoroughNext(engine, fileBytes, st))
  {
    StepProgress(engine, fileBytes, st);
    StepRanges(|fileBytes|, st, fileBytes[..st.next], ScanAt(engine, fileBytes, st.next));
    StepWitness(engine, fileBytes, st, ScanAt(engine, fileBytes, st.next));
    StepNoPair(engine, fileBytes, st, ScanAt(engine, fileBytes, st.next));
  }

  /**
   * The thorough scan loop from state `st` on. It ends when every full step
   * of the file is scanned or as soon as a second range is closed.
   */
  function ThoroughLoop(engine: Engine, fileBytes: seq<byte>, st: ThoroughState): (r: ThoroughState)
    requires ThoroughInv(engine, fileBytes, st) && |st.ranges| <= 1
    ensures ThoroughInv(engine, fileBytes, r)
    ensures r.next > |fileBytes| || |r.ranges| == 2
    ensures |r.ranges| == 2 ==> r.next == r.ranges[1].end + 2 * ThoroughIncrementSize
    decreases |fileBytes| + ThoroughIncrementSize - st.next
  {
    if st.next > |fileBytes| then st
    else
      var st' := ThoroughNext(engine, fileBytes, st);
      StepInv(engine, fileBytes, st);
      if |st'.ranges| > 1 then st' else ThoroughLoop(engine, fileBytes, st')
  }

  /** The base64 encodings of the ranges of `fileBytes`, in order. */
  function RegionEncodings(fileBytes: seq<byte>, ranges: seq<Range>): seq<string>
    requires forall i | 0 <= i < |ranges| :: 0 <= ranges[i].start <= ranges[i].end <= |fileBytes|
  {
    seq(|ranges|, i requires 0 <= i < |ranges| => Base64.Encode(fileBytes[ranges[i].start..ranges[i].end]))
  }

  /** The ranges lie within the file and the last prefix, if any, is at least one step long. */
  predicate Finishable(fileBytes: seq<byte>, st: ThoroughState) {
    && (forall i | 0 <= i < |st.ranges| :: 0 <= st.ranges[i].start <= st.ranges[i].end <= |fileBytes|)
    && (st.lastSeenMaliciousBytes.None? || |st.lastSeenMaliciousBytes.value| >= ThoroughIncrementSize)
  }

  lemma InvFinishable(engine: Engine, fileBytes: seq<byte>, st: ThoroughState)
    requires ThoroughInv(engine, fileBytes, st)
    ensures Finishable(fileBytes, st)
  {
    assert forall i | 0 <= i < |st.ranges| :: RangeInside(|fileBytes|, st.next, st.ranges[i]);
  }

  /** What the agent reports once the loop is over. */
  function ThoroughFinish(fileBytes: seq<byte>, st: ThoroughState): DefenderScanModel
    requires Finishable(fileBytes, st)
  {
    var regions := st.scanResult.base64MaliciousRegions + RegionEncodings(fileBytes, st.ranges);
    var r := st.scanResult.(
      base64MaliciousRegions := regions,
      threatNames := st.threatNames,
      resultTitle := if |st.ranges| > 0 then ThreatDetected else NotDetected);
    if |regions| == 0 then
      r.(zeroXMaliciousBytes := st.lastSeenMaliciousBytes,
         xyMaliciousBytes := XyWindow(st.lastSeenMaliciousBytes, ThoroughIncrementSize))
    else r
  }

  /** The final loop state of the thorough scan of `fileBytes`. */
  function ThoroughFinal(engine: Engine, fileBytes: seq<byte>): (st: ThoroughState)
    ensures ThoroughInv(engine, fileBytes, st)
    ensures st.next > |fileBytes| || |st.ranges| == 2
    ensures |st.ranges| == 2 ==> st.next == st.ranges[1].end + 2 * ThoroughIncrementSize
  {
    ThoroughLoop(engine, fileBytes, ThoroughInitial)
  }

  /** The malicious ranges the thorough scan of `fileBytes` records. */
  function ThoroughRanges(engine: Engine, fileBytes: seq<byte>): seq<Range> {
    ThoroughFinal(engine, fileBytes).ranges
  }

  /** The result of the thorough scan of `fileBytes`. */
  function ThoroughScan(engine: Engine, fileBytes: seq<byte>): DefenderScanModel {
    var st := ThoroughFinal(engine, fileBytes);
    InvFinishable(engine, fileBytes, st);
    ThoroughFinish(fileBytes, st)
  }

  /** Appending one range appends its encoding. */
  lemma RegionEncodingsSnoc(fileBytes: seq<byte>, ranges: seq<Range>, k: nat)
    requires k < |ranges|
    requires forall i | 0 <= i < |ranges| :: 0 <= ranges[i].start <= ranges[i].end <= |fileBytes|
    ensures RegionEncodings(fileBytes, ranges[..k + 1])
      == RegionEncodings(fileBytes, ranges[..k]) + [Base64.Encode(fileBytes[ranges[k].start..ranges[k].end])]
  {
  }

  /** The thorough scan, step by step; the record `st` bundles the agent's loop variables. */
  method GetThoroughDefenderScanResults(engine: Engine, fileBytes: seq<byte>) returns (scanResult: DefenderScanModel)
    ensures scanResult == ThoroughScan(engine, fileBytes)
  {
    var st := ThoroughInitial;
    ThoroughInitialInv(engine, fileBytes);
    while st.next <= |fileBytes|
      invariant ThoroughInv(engine, fileBytes, st) && |st.ranges| <= 1
      invariant ThoroughLoop(engine, fileBytes, st) == ThoroughFinal(engine, fileBytes)
      decreases |fileBytes| + ThoroughIncrementSize - st.next
    {
      StepInv(engine, fileBytes, st);
      st := ThoroughIteration(engine, fileBytes, st);
      if |st.ranges| > 1 {
        break;
      }
    }
    InvFinishable(engine, fileBytes, st);
    scanResult := FinishThoroughScan(fileBytes, st);
  }

  /**
   * One pass of the loop body on the prefix of length `st.next`: scan it,
   * remember it, collect its names and advance the start/end state machine.
   */
  method ThoroughIteration(engine: Engine, fileBytes: seq<byte>, st: ThoroughState) returns (st': ThoroughState)
    requires st.next <= |fileBytes|
    ensures st' == ThoroughNext(engine, fileBytes, st)
  {
    var chunkSize := st.next;
    // As in the default scan, the clamp to the file length never fires.
    var chunk := fileBytes[..chunkSize];
    var scanResult := ScanFileWithDefender(engine, chunk);
    var threatNames := CollectThreatNames(st.threatNames, scanResult.threatNames);
    var ranges, foundStart, startIndex, endIndex := st.ranges, st.foundStart, st.startIndex, st.endIndex;
    if scanResult.resultTitle == ThreatDetected {
      foundStart := true;
      startIndex := chunkSize - ThoroughIncrementSize;
    } else if scanResult.resultTitle == NotDetected && foundStart {
      endIndex := chunkSize - ThoroughIncrementSize;
    }
    if foundStart && endIndex > 0 {
      ranges := ranges + [Range(startIndex, endIndex)];
      startIndex := 0;
      endIndex := 0;
      foundStart := false;
    }
    st' := ThoroughState(scanResult, ranges, threatNames, Some(chunk), foundStart, startIndex, endIndex, chunkSize + ThoroughIncrementSize);
  }

  /** The agent's loop over one scan's names, appending each one not yet collected and not empty. */
  method CollectThreatNames(collected: seq<string>, names: seq<string>) returns (threatNames: seq<string>)
    ensures threatNames == AddThreatNames(collected, names)
  {
    threatNames := collected;
    var i := 0;
    while i < |names|
      invariant 0 <= i <= |names|
      invariant AddThreatNames(threatNames, names[i..]) == AddThreatNames(collected, names)
    {
      var threatName := names[i];
      assert names[i..][1..] == names[i + 1..];
      if threatName !in threatNames && threatName != "" {
        threatNames := threatNames + [threatName];
      }
      i := i + 1;
    }
  }

  /** The agent's work after the loop: encode each range, set the names and title, and fall back to the last prefix. */
  method FinishThoroughScan(fileBytes: seq<byte>, st: ThoroughState) returns (scanResult: DefenderScanModel)
    requires Finishable(fileBytes, st)
    ensures scanResult == ThoroughFinish(fileBytes, st)
  {
    scanResult := st.scanResult;
    var k := 0;
    while k < |st.ranges|
      invariant 0 <= k <= |st.ranges|
      invariant scanResult == st.scanResult.(base64MaliciousRegions := st.scanResult.base64MaliciousRegions + RegionEncodings(fileBytes, st.ranges[..k]))
    {
      var start := st.ranges[k].start;
      var end := st.ranges[k].end;
      var maliciousBytes := fileBytes[start..end];
      var b64 := Base64.Encode(maliciousBytes);
      RegionEncodingsSnoc(fileBytes, st.ranges, k);
      scanResult := scanResult.(base64MaliciousRegions := scanResult.base64MaliciousRegions + [b64]);
      k := k + 1;
    }
    assert st.ranges[..k] == st.ranges;
    scanResult := scanResult.(threatNames := st.threatNames);
    if |st.ranges| > 0 {
      scanResult := scanResult.(resultTitle := ThreatDetected);
    } else {
      scanResult := scanResult.(resultTitle := NotDetected);
    }
    if |scanResult.base64MaliciousRegions| == 0 {
      var xy := GetXyBytes(st.lastSeenMaliciousBytes, ThoroughIncrementSize);
      scanResult := scanResult.(zeroXMaliciousBytes := st.lastSeenMaliciousBytes, xyMaliciousBytes := xy.value);
    }
  }

  // ---------------------------------------------------------------------------
  // What the thorough scan guarantees

  /**
   * At most two ranges are kept; each is step-aligned, non-empty and ends at
   * least one step before the end of the file; they are increasing and disjoint.
   */
  lemma ThoroughRangesShape(engine: Engine, fileBytes: seq<byte>)
    ensures var rs := ThoroughRanges(engine, fileBytes);
      && |rs| <= 2
      && (forall i | 0 <= i < |rs| ::
            && rs[i].start % ThoroughIncrementSize == 0 && rs[i].end % ThoroughIncrementSize == 0
            && 0 <= rs[i].start < rs[i].end && rs[i].end + ThoroughIncrementSize <= |fileBytes|)
      && (forall i | 0 <= i < |rs| - 1 :: rs[i].end < rs[i + 1].start)
  {
    var st := ThoroughFinal(engine, fileBytes);
    assert forall i | 0 <= i < |st.ranges| :: RangeInside(|fileBytes|, st.next, st.ranges[i]);
  }

  /**
   * Each range `(s, e)` is backed by the scans: the prefix of length s + 8198
   * was detected, the prefix of length e + 8198 was clean, and every
   * step-aligned prefix strictly between them ended in an error.
   */
  lemma ThoroughRangeWitnessed(engine: Engine, fileBytes: seq<byte>, i: nat)
    requires i < |ThoroughRanges(engine, fileBytes)|
    ensures var r := ThoroughRanges(engine, fileBytes)[i];
      && DetectedAt(engine, fileBytes, r.start + ThoroughIncrementSize)
      && CleanAt(engine, fileBytes, r.end + ThoroughIncrementSize)
      && forall len | r.start + ThoroughIncrementSize < len < r.end + ThoroughIncrementSize && len % ThoroughIncrementSize == 0
           :: ErrorAt(engine, fileBytes, len)
  {
    var st := ThoroughFinal(engine, fileBytes);
    assert RangeWitnessed(engine, fileBytes, st.ranges[i]);
  }

  /** A clean scan right after the detection makes the range exactly one step long. */
  lemma ThoroughRangeOneStep(engine: Engine, fileBytes: seq<byte>, i: nat)
    requires i < |ThoroughRanges(engine, fileBytes)|
    requires CleanAt(engine, fileBytes, ThoroughRanges(engine, fileBytes)[i].start + 2 * ThoroughIncrementSize)
    ensures ThoroughRanges(engine, fileBytes)[i].end == ThoroughRanges(engine, fileBytes)[i].start + ThoroughIncrementSize
  {
    var st := ThoroughFinal(engine, fileBytes);
    assert RangeWitnessed(engine, fileBytes, st.ranges[i]);
    assert RangeInside(|fileBytes|, st.next, st.ranges[i]);
    WitnessedOneStep(engine, fileBytes, st.ranges[i]);
  }

  lemma WitnessedOneStep(engine: Engine, fileBytes: seq<byte>, r: Range)
    requires RangeWitnessed(engine, fileBytes, r)
    requires r.start % ThoroughIncrementSize == 0 && r.end % ThoroughIncrementSize == 0 && r.start < r.end
    requires CleanAt(engine, fileBytes, r.start + 2 * ThoroughIncrementSize)
    ensures r.end == r.start + ThoroughIncrementSize
  {
    var len := r.start + 2 * ThoroughIncrementSize;
    StepAligned(r.start + ThoroughIncrementSize);
    assert !ErrorAt(engine, fileBytes, len);
    assert r.end + ThoroughIncrementSize <= len;
  }

  /**
   * No range is found exactly when no step-aligned detected prefix is
   * followed by a longer step-aligned clean one.
   */
  lemma ThoroughRangesEmpty(engine: Engine, fileBytes: seq<byte>)
    ensures ThoroughRanges(engine, fileBytes) == [] <==>
      forall a, b | OnStep(a) && OnStep(b) && a < b :: !(DetectedAt(engine, fileBytes, a) && CleanAt(engine, fileBytes, b))
  {
    var st := ThoroughFinal(engine, fileBytes);
    if st.ranges != [] {
      assert RangeWitnessed(engine, fileBytes, st.ranges[0]);
      assert RangeInside(|fileBytes|, st.next, st.ranges[0]);
      WitnessedPair(engine, fileBytes, st.ranges[0]);
    } else {
      NoPairAtEnd(engine, fileBytes, st);
    }
  }

  /** A witnessed range gives a detected prefix followed by a clean one. */
  lemma WitnessedPair(engine: Engine, fileBytes: seq<byte>, r: Range)
    requires RangeWitnessed(engine, fileBytes, r)
    requires r.start % ThoroughIncrementSize == 0 && r.end % ThoroughIncrementSize == 0 && r.start < r.end
    ensures exists a, b | OnStep(a) && OnStep(b) && a < b :: DetectedAt(engine, fileBytes, a) && CleanAt(engine, fileBytes, b)
  {
    StepAligned(r.start + ThoroughIncrementSize);
    StepAligned(r.end + ThoroughIncrementSize);
    assert OnStep(r.start + ThoroughIncrementSize) && OnStep(r.end + ThoroughIncrementSize);
    assert DetectedAt(engine, fileBytes, r.start + ThoroughIncrementSize) && CleanAt(engine, fileBytes, r.end + ThoroughIncrementSize);
  }

  /** With every step scanned and no range closed, no detected prefix is followed by a clean one. */
  lemma NoPairAtEnd(engine: Engine, fileBytes: seq<byte>, st: ThoroughState)
    requires NoPairOk(engine, fileBytes, st) && st.ranges == [] && st.next > |fileBytes|
    ensures forall a, b | OnStep(a) && OnStep(b) && a < b :: !(DetectedAt(engine, fileBytes, a) && CleanAt(engine, fileBytes, b))
  {
    forall a, b | OnStep(a) && OnStep(b) && a < b
      ensures !(DetectedAt(engine, fileBytes, a) && CleanAt(engine, fileBytes, b))
    {
      if b <= |fileBytes| {
        assert b < st.next;
      }
    }
  }

  /** The scans the thorough scan performs run up to `ThoroughFinal(...).next`: every step when fewer than two ranges close. */
  lemma ThoroughScansPerformed(engine: Engine, fileBytes: seq<byte>)
    ensures var st := ThoroughFinal(engine, fileBytes);
      && (|st.ranges| < 2 ==> st.next == |fileBytes| / ThoroughIncrementSize * ThoroughIncrementSize + ThoroughIncrementSize)
      && (|st.ranges| == 2 ==> st.next == st.ranges[1].end + 2 * ThoroughIncrementSize)
  {
    var st := ThoroughFinal(engine, fileBytes);
    if |st.ranges| < 2 {
      var q := |fileBytes| / ThoroughIncrementSize;
      assert st.next % ThoroughIncrementSize == 0;
      assert |fileBytes| < st.next <= |fileBytes| + ThoroughIncrementSize;
      assert st.next == (st.next / ThoroughIncrementSize) * ThoroughIncrementSize;
      assert st.next / ThoroughIncrementSize == q + 1;
    }
  }

  /**
   * The reported record: THREAT_DETECTED exactly when a range was found, one
   * base64 region per range in order, and, only when there is no region, the
   * last scanned prefix with its window. The threat names are the distinct
   * non-empty names of the scans performed, in first-seen order.
   */
  lemma ThoroughScanResult(engine: Engine, fileBytes: seq<byte>)
    ensures var st := ThoroughFinal(engine, fileBytes);
      var r := ThoroughScan(engine, fileBytes);
      && (r.resultTitle == ThreatDetected <==> st.ranges != [])
      && (r.resultTitle == NotDetected <==> st.ranges == [])
      && |r.base64MaliciousRegions| <= 2
      && r.base64MaliciousRegions == RegionEncodings(fileBytes, st.ranges)
      && (st.ranges != [] ==> r.zeroXMaliciousBytes.None? && r.xyMaliciousBytes.None?)
      && (st.ranges == [] && |fileBytes| < ThoroughIncrementSize ==> r.zeroXMaliciousBytes.None? && r.xyMaliciousBytes.None?)
      && (st.ranges == [] && |fileBytes| >= ThoroughIncrementSize ==>
            && r.zeroXMaliciousBytes == Some(fileBytes[..|fileBytes| / ThoroughIncrementSize * ThoroughIncrementSize])
            && r.xyMaliciousBytes == XyWindow(r.zeroXMaliciousBytes, ThoroughIncrementSize))
      && r.threatNames == FirstSightings(NamesBelow(engine, fileBytes, st.next))
  {
    var st := ThoroughFinal(engine, fileBytes);
    ThoroughScansPerformed(engine, fileBytes);
    assert st.scanResult.base64MaliciousRegions == [];
  }

  /** The reported threat names hold no duplicate and no empty name, and are exactly the non-empty names the scans reported. */
  lemma ThoroughThreatNames(engine: Engine, fileBytes: seq<byte>)
    ensures var st := ThoroughFinal(engine, fileBytes);
      var names := ThoroughScan(engine, fileBytes).threatNames;
      && NoDuplicates(names) && "" !in names
      && forall x :: x in names <==> x != "" && x in NamesBelow(engine, fileBytes, st.next)
  {
    var st := ThoroughFinal(engine, fileBytes);
    var all := NamesBelow(engine, fileBytes, st.next);
    ThoroughScanResult(engine, fileBytes);
    FirstSightingsDistinct(all);
    forall x
      ensures x in FirstSightings(all) <==> x != "" && x in all
    {
      FirstSightingsMember(all, x);
    }
  }
}
