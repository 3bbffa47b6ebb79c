/**
 * The virtual-memory part of the ETW processing: the kernel's VirtualMem
 * matches are tallied per process (count, total bytes, sizes), and the
 * processes with more than 10 allocations, the processes with more than
 * 1 MiB allocated, and the single allocations over 1 MiB are listed.
 */
module EtwMemory {
  import opened Wrappers
  import opened PyValues
  import opened Collections
  import opened EtwEvents

  const KernelProvider: PyValue := PyStr("Windows Kernel")
  const VirtualMemTask: PyValue := PyStr("VirtualMem")
  /** A process is listed for its allocation count when it has more than this many. */
  const HighCountThreshold: int := 10
  /** A process or an allocation is large above this many bytes. */
  const LargeAllocationThreshold: int := 1048576

  datatype ProcessStats = ProcessStats(count: nat, totalBytes: int, sizes: seq<int>)

  datatype VallocStats = VallocStats(
    highCountProcs: seq<(PyValue, nat)>,
    largeAllocProcs: seq<(PyValue, int)>,
    largeAllocs: seq<(PyValue, int)>)

  const EmptyStats: VallocStats := VallocStats([], [], [])

  predicate IsVirtualAlloc(m: Match) {
    m.provider == KernelProvider && m.task == VirtualMemTask
  }

  /** The VirtualMem matches, in order. */
  function VirtualAllocEvents(ms: seq<Match>): (r: seq<Match>)
    ensures forall m | m in r :: m in ms && IsVirtualAlloc(m)
    ensures forall m | m in ms && IsVirtualAlloc(m) :: m in r
  {
    if ms == [] then [] else (if IsVirtualAlloc(ms[0]) then [ms[0]] else []) + VirtualAllocEvents(ms[1..])
  }

  /** An event whose `Length` field is an integer; any other makes `fields["Length"]` or `+=` raise. */
  predicate HasLength(m: Match) {
    "Length" in m.fields && m.fields["Length"].PyInt?
  }

  function LengthOf(m: Match): int
    requires HasLength(m)
  {
    m.fields["Length"].i
  }

  predicate AllHaveLength(events: seq<Match>) {
    forall i | 0 <= i < |events| :: HasLength(events[i])
  }

  /** The per-process statistics of the first pass (`allocation_stats`), in order of first sighting. */
  function Tally(events: seq<Match>): OrderedMap<PyValue, ProcessStats>
    requires AllHaveLength(events)
    decreases |events|
  {
    if events == [] then EmptyMap()
    else
      var init := events[..|events| - 1];
      var e := events[|events| - 1];
      var table := Tally(init);
      var s := if e.processName in table.values then table.values[e.processName] else ProcessStats(0, 0, []);
      table.Put(e.processName, ProcessStats(s.count + 1, s.totalBytes + LengthOf(e), s.sizes + [LengthOf(e)]))
  }

  /** The lengths of the allocations of `p`, in order. */
  function SizesOf(events: seq<Match>, p: PyValue): seq<int>
    requires AllHaveLength(events)
  {
    if events == [] then []
    else SizesOf(events[..|events| - 1], p) + (if events[|events| - 1].processName == p then [LengthOf(events[|events| - 1])] else [])
  }

  function Sum(xs: seq<int>): int {
    if xs == [] then 0 else Sum(xs[..|xs| - 1]) + xs[|xs| - 1]
  }

  function ProcessNames(events: seq<Match>): seq<PyValue> {
    seq(|events|, i requires 0 <= i < |events| => events[i].processName)
  }

  lemma InitHasLength(events: seq<Match>)
    requires AllHaveLength(events) && events != []
    ensures AllHaveLength(events[..|events| - 1])
  {
    var init := events[..|events| - 1];
    forall i | 0 <= i < |init| ensures HasLength(init[i]) { assert init[i] == events[i]; }
  }

  /** The tally is a well-formed ordered map with one entry per process, in order of first sighting. */
  lemma {:induction false} TallyKeys(events: seq<Match>)
    requires AllHaveLength(events)
    ensures Tally(events).Valid()
    ensures Tally(events).keys == Distinct(ProcessNames(events))
    decreases |events|
  {
    if events != [] {
      var init := events[..|events| - 1];
      var e := events[|events| - 1];
      InitHasLength(events);
      TallyKeys(init);
      DistinctMembers(ProcessNames(init));
      assert ProcessNames(events) == ProcessNames(init) + [e.processName];
      assert ProcessNames(events)[..|events| - 1] == ProcessNames(init);
    }
  }

  /** The entry of `p` counts its allocations, sums their lengths and lists the lengths in order. */
  lemma {:induction false} TallyEntry(events: seq<Match>, p: PyValue)
    requires AllHaveLength(events)
    requires p in Tally(events).values
    ensures Tally(events).values[p].sizes == SizesOf(events, p)
    ensures Tally(events).values[p].count == |SizesOf(events, p)|
    ensures Tally(events).values[p].totalBytes == Sum(SizesOf(events, p))
    decreases |events|
  {
    var init := events[..|events| - 1];
    var e := events[|events| - 1];
    InitHasLength(events);
    var table := Tally(init);
    if p == e.processName {
      if p in table.values {
        TallyEntry(init, p);
      } else {
        TallyKeys(init);
        DistinctMembers(ProcessNames(init));
        SizesOfAbsent(init, p);
      }
      var sizes := SizesOf(init, p);
      assert SizesOf(events, p) == sizes + [LengthOf(e)];
      assert (sizes + [LengthOf(e)])[..|sizes|] == sizes;
    } else {
      assert Tally(events).values[p] == table.values[p];
      TallyEntry(init, p);
      assert SizesOf(events, p) == SizesOf(init, p) + [];
    }
  }

  lemma TallyValues(events: seq<Match>)
    requires AllHaveLength(events)
    ensures forall p | p in Tally(events).values ::
      var s := Tally(events).values[p];
      s.sizes == SizesOf(events, p) && s.count == |SizesOf(events, p)| && s.totalBytes == Sum(SizesOf(events, p))
  {
    forall p | p in Tally(events).values
      ensures var s := Tally(events).values[p];
              s.sizes == SizesOf(events, p) && s.count == |SizesOf(events, p)| && s.totalBytes == Sum(SizesOf(events, p))
    {
      TallyEntry(events, p);
    }
  }

  /**
   * The tally has one entry per process, in order of first sighting; each
   * entry counts that process's allocations and sums their lengths, and
   * lists the lengths in order.
   */
  lemma TallySpec(events: seq<Match>)
    requires AllHaveLength(events)
    ensures Tally(events).Valid()
    ensures Tally(events).keys == Distinct(ProcessNames(events))
    ensures forall p | p in Tally(events).values ::
      var s := Tally(events).values[p];
      s.sizes == SizesOf(events, p) && s.count == |SizesOf(events, p)| && s.totalBytes == Sum(SizesOf(events, p))
  {
    TallyKeys(events);
    TallyValues(events);
  }

  /** A process that never allocated has no sizes. */
  lemma {:induction false} SizesOfAbsent(events: seq<Match>, p: PyValue)
    requires AllHaveLength(events)
    requires p !in ProcessNames(events)
    ensures SizesOf(events, p) == []
    decreases |events|
  {
    if events != [] {
      var init := events[..|events| - 1];
      assert AllHaveLength(init) by {
        forall i | 0 <= i < |init| ensures HasLength(init[i]) { assert init[i] == events[i]; }
      }
      assert ProcessNames(init) == ProcessNames(events)[..|events| - 1];
      assert events[|events| - 1].processName == ProcessNames(events)[|events| - 1];
      SizesOfAbsent(init, p);
    }
  }

  /** The processes of `keys` with more than 10 allocations, with their counts. */
  function HighCountProcs(table: map<PyValue, ProcessStats>, keys: seq<PyValue>): (r: seq<(PyValue, nat)>)
    requires forall k | k in keys :: k in table
    ensures forall x | x in r :: x.0 in keys && x.1 == table[x.0].count && x.1 > HighCountThreshold
    ensures forall k | k in keys && table[k].count > HighCountThreshold :: (k, table[k].count) in r
  {
    if keys == [] then []
    else
      var s := table[keys[0]];
      (if s.count > HighCountThreshold then [(keys[0], s.count)] else []) + HighCountProcs(table, keys[1..])
  }

  /** The processes of `keys` with more than 1 MiB allocated, with their totals. */
  function LargeAllocProcs(table: map<PyValue, ProcessStats>, keys: seq<PyValue>): (r: seq<(PyValue, int)>)
    requires forall k | k in keys :: k in table
    ensures forall x | x in r :: x.0 in keys && x.1 == table[x.0].totalBytes && x.1 > LargeAllocationThreshold
    ensures forall k | k in keys && table[k].totalBytes > LargeAllocationThreshold :: (k, table[k].totalBytes) in r
  {
    if keys == [] then []
    else
      var s := table[keys[0]];
      (if s.totalBytes > LargeAllocationThreshold then [(keys[0], s.totalBytes)] else []) + LargeAllocProcs(table, keys[1..])
  }

  /** The single allocations over 1 MiB, in order, with their process. */
  function LargeAllocs(events: seq<Match>): (r: seq<(PyValue, int)>)
    requires AllHaveLength(events)
    ensures forall x | x in r :: x.1 > LargeAllocationThreshold && exists e | e in events :: x == (e.processName, LengthOf(e))
    ensures forall e | e in events && LengthOf(e) > LargeAllocationThreshold :: (e.processName, LengthOf(e)) in r
  {
    if events == [] then []
    else
      assert AllHaveLength(events[1..]) by {
        forall i | 0 <= i < |events[1..]| ensures HasLength(events[1..][i]) { assert events[1..][i] == events[i + 1]; }
      }
      var e := events[0];
      (if LengthOf(e) > LargeAllocationThreshold then [(e.processName, LengthOf(e))] else []) + LargeAllocs(events[1..])
  }

  /** The second pass over a non-empty tally. */
  function SecondPass(events: seq<Match>): VallocStats
    requires AllHaveLength(events)
  {
    TallySpec(events);
    var table := Tally(events);
    VallocStats(HighCountProcs(table.values, table.keys), LargeAllocProcs(table.values, table.keys), LargeAllocs(events))
  }

  /**
   * `process_valloc_data` as written: an event without an integer length
   * raises, and so does the summary logging when there is no allocation at
   * all (the average divides by the number of sizes, and the high-count
   * list is read although it was never assigned).
   */
  function ProcessVallocDataAsWritten(matches: seq<Match>): Result<VallocStats> {
    var events := VirtualAllocEvents(matches);
    if !AllHaveLength(events) then Failure("Length missing or not an integer")
    else if events == [] then Failure("division by zero")
    else Success(SecondPass(events))
  }

  /** `process_valloc_data` with the summary guarded like the second pass: no allocations give the empty lists. */
  function VallocStatsOf(matches: seq<Match>): Result<VallocStats> {
    var events := VirtualAllocEvents(matches);
    if !AllHaveLength(events) then Failure("Length missing or not an integer")
    else if events == [] then Success(EmptyStats)
    else Success(SecondPass(events))
  }

  /** As written, a log without VirtualMem allocations makes the processing raise; the corrected version reports empty lists. */
  lemma NoAllocationsRaise(matches: seq<Match>)
    requires forall i | 0 <= i < |matches| :: !IsVirtualAlloc(matches[i])
    ensures ProcessVallocDataAsWritten(matches).Failure?
    ensures VallocStatsOf(matches) == Success(EmptyStats)
  {
    NoVirtualAllocEvents(matches);
  }

  lemma {:induction false} NoVirtualAllocEvents(ms: seq<Match>)
    requires forall i | 0 <= i < |ms| :: !IsVirtualAlloc(ms[i])
    ensures VirtualAllocEvents(ms) == []
  {
    if ms != [] {
      assert forall i | 0 <= i < |ms[1..]| :: ms[1..][i] == ms[i + 1];
      NoVirtualAllocEvents(ms[1..]);
    }
  }

  /** The concrete input: no matches at all. */
  lemma EmptyLogRaises()
    ensures ProcessVallocDataAsWritten([]) == Failure("division by zero")
  {
  }

  /** Both versions agree whenever there is an allocation. */
  lemma VersionsAgree(matches: seq<Match>)
    requires exists i | 0 <= i < |matches| :: IsVirtualAlloc(matches[i])
    ensures ProcessVallocDataAsWritten(matches) == VallocStatsOf(matches)
  {
    var i :| 0 <= i < |matches| && IsVirtualAlloc(matches[i]);
    assert matches[i] in VirtualAllocEvents(matches);
  }

  /**
   * The thresholds are strict: a process is listed for its count exactly
   * when it has more than 10 allocations, for its bytes exactly when it
   * allocated more than 1 MiB in total, and an allocation exactly when it
   * is over 1 MiB; the counts and totals are those of the process's
   * allocations.
   */
  lemma VallocStatsSpec(matches: seq<Match>)
    requires VallocStatsOf(matches).Success?
    ensures var events := VirtualAllocEvents(matches);
      var r := VallocStatsOf(matches).value;
      && AllHaveLength(events)
      && (forall x | x in r.highCountProcs :: x.1 == |SizesOf(events, x.0)| && x.1 > HighCountThreshold)
      && (forall p | p in ProcessNames(events) && |SizesOf(events, p)| > HighCountThreshold :: (p, |SizesOf(events, p)|) in r.highCountProcs)
      && (forall x | x in r.largeAllocProcs :: x.1 == Sum(SizesOf(events, x.0)) && x.1 > LargeAllocationThreshold)
      && (forall p | p in ProcessNames(events) && Sum(SizesOf(events, p)) > LargeAllocationThreshold :: (p, Sum(SizesOf(events, p))) in r.largeAllocProcs)
      && (forall e | e in events :: LengthOf(e) > LargeAllocationThreshold <==> (e.processName, LengthOf(e)) in r.largeAllocs)
  {
    var events := VirtualAllocEvents(matches);
    if events != [] {
      TallySpec(events);
      DistinctMembers(ProcessNames(events));
      var table := Tally(events);
      forall p | p in ProcessNames(events)
        ensures p in table.values
      {
        assert p in Distinct(ProcessNames(events));
      }
    }
  }

  /** The first pass over the allocations: per-process statistics and the list of all sizes. */
  method CollectAllocations(events: seq<Match>) returns (r: Result<(OrderedMap<PyValue, ProcessStats>, seq<int>)>)
    ensures AllHaveLength(events) <==> r.Success?
    ensures r.Success? ==> r.value.0 == Tally(events) && |r.value.1| == |events|
  {
    var allocationStats: OrderedMap<PyValue, ProcessStats> := EmptyMap();
    var allSizes: seq<int> := [];
    var i := 0;
    while i < |events|
      invariant 0 <= i <= |events|
      invariant AllHaveLength(events[..i])
      invariant allocationStats == Tally(events[..i])
      invariant |allSizes| == i
    {
      var event := events[i];
      if !HasLength(event) {
        return Failure("Length missing or not an integer");
      }
      var process := event.processName;
      var length := event.fields["Length"].i;
      var s := if process in allocationStats.values then allocationStats.values[process] else ProcessStats(0, 0, []);
      assert events[..i + 1][..i] == events[..i];
      assert events[..i + 1][i] == event;
      assert AllHaveLength(events[..i + 1]);
      allocationStats := allocationStats.Put(process, ProcessStats(s.count + 1, s.totalBytes + length, s.sizes + [length]));
      allSizes := allSizes + [length];
      i := i + 1;
    }
    assert events[..i] == events;
    r := Success((allocationStats, allSizes));
  }

  /**
   * `process_valloc_data` as written: the corrected processing followed by
   * the summary logging, whose average divides by the number of sizes and
   * so raises when there is no allocation.
   */
  method ProcessVallocDataLogged(matches: seq<Match>) returns (r: Result<VallocStats>)
    ensures r == ProcessVallocDataAsWritten(matches)
  {
    r := ProcessVallocData(matches);
    if r.Success? && |VirtualAllocEvents(matches)| == 0 {
      r := Failure("division by zero");
    }
  }

  /** Whenever the written processing succeeds, every VirtualMem match carries an integer length. */
  lemma WrittenSuccessHasLengths(matches: seq<Match>)
    requires ProcessVallocDataAsWritten(matches).Success?
    ensures forall m | m in matches && IsVirtualAlloc(m) :: HasLength(m)
  {
    var events := VirtualAllocEvents(matches);
    forall m | m in matches && IsVirtualAlloc(m)
      ensures HasLength(m)
    {
      var i :| 0 <= i < |events| && events[i] == m;
    }
  }

  /** The corrected processing: the first pass by a loop, the second pass when there are sizes. */
  method ProcessVallocData(matches: seq<Match>) returns (r: Result<VallocStats>)
    ensures r == VallocStatsOf(matches)
  {
    var events := VirtualAllocEvents(matches);
    var collected := CollectAllocations(events);
    if collected.Failure? {
      return Failure("Length missing or not an integer");
    }
    var (allocationStats, allSizes) := collected.value;
    var stats := EmptyStats;
    if |allSizes| > 0 {
      TallySpec(events);
      stats := VallocStats(HighCountProcs(allocationStats.values, allocationStats.keys),
                           LargeAllocProcs(allocationStats.values, allocationStats.keys), LargeAllocs(events));
    }
    r := Success(stats);
  }
}
