/**
 * The ETW log processing: events are matched against the rules, and the
 * matches are enriched by the WinINet, virtual-memory and DNS passes and the
 * thread/allocation cross-reference.
 */
module Etw {
  import opened Wrappers
  import opened PyValues
  import opened EtwEvents
  import EtwWininet
  import EtwMemory

  const DnsProvider: PyValue := PyStr("Microsoft-Windows-DNS-Client")
  const DnsQueryTask: PyValue := PyStr("EventID(3006)")
  const ThreadTask: PyValue := PyStr("Thread")
  const StartOpcode: PyValue := PyStr("Start")

  /** DNS resource-record type codes and their names. */
  const DnsRecordTypes: map<int, string> := map[
    1 := "A", 2 := "NS", 5 := "CNAME", 6 := "SOA", 12 := "PTR", 15 := "MX", 16 := "TXT", 28 := "AAAA",
    33 := "SRV", 35 := "NAPTR", 39 := "DNAME", 41 := "OPT", 43 := "DS", 46 := "RRSIG", 47 := "NSEC",
    48 := "DNSKEY", 50 := "NSEC3", 51 := "NSEC3PARAM", 257 := "CAA"]

  datatype DnsQuery = DnsQuery(queryName: PyValue, queryType: PyValue, threadId: PyValue, processName: PyValue)

  predicate IsDnsQuery(m: Match) {
    m.provider == DnsProvider && m.task == DnsQueryTask
  }

  /** `dns_record_types.get(query_type, query_type)`. */
  function QueryTypeName(v: PyValue): PyValue {
    if v.PyInt? && v.i in DnsRecordTypes then PyStr(DnsRecordTypes[v.i]) else v
  }

  /** A known type code becomes its name; anything else is kept as it is. */
  lemma QueryTypeNameSpec(v: PyValue)
    ensures v.PyInt? && v.i in DnsRecordTypes ==> QueryTypeName(v) == PyStr(DnsRecordTypes[v.i])
    ensures !(v.PyInt? && v.i in DnsRecordTypes) ==> QueryTypeName(v) == v
    ensures QueryTypeName(PyInt(28)) == PyStr("AAAA") && QueryTypeName(PyInt(3)) == PyInt(3)
  {
  }

  /** The table gives different codes different names, so a name identifies its code. */
  lemma DnsRecordTypesInjective()
    ensures forall a, b | a in DnsRecordTypes && b in DnsRecordTypes && DnsRecordTypes[a] == DnsRecordTypes[b] :: a == b
  {
  }

  function DnsQueryOf(m: Match): DnsQuery {
    DnsQuery(Get(m.fields, "QueryName"), QueryTypeName(Get(m.fields, "QueryType")), m.threadId, m.processName)
  }

  /** The DNS queries of the matches, in order. */
  function DnsQueries(ms: seq<Match>): seq<DnsQuery> {
    if ms == [] then [] else (if IsDnsQuery(ms[0]) then [DnsQueryOf(ms[0])] else []) + DnsQueries(ms[1..])
  }

  function DnsMatchCount(ms: seq<Match>): nat {
    if ms == [] then 0 else (if IsDnsQuery(ms[0]) then 1 else 0) + DnsMatchCount(ms[1..])
  }

  /** One query per DNS match, none dropped as a duplicate: the same query seen twice is listed twice. */
  lemma {:induction false} DnsQueriesCount(ms: seq<Match>)
    ensures |DnsQueries(ms)| == DnsMatchCount(ms)
    ensures forall q | q in DnsQueries(ms) :: exists m | m in ms :: IsDnsQuery(m) && q == DnsQueryOf(m)
  {
    if ms != [] {
      DnsQueriesCount(ms[1..]);
      assert forall m | m in ms[1..] :: m in ms;
    }
  }

  /** The DNS pass distributes over the concatenation of two match lists. */
  lemma {:induction false} DnsQueriesAppend(xs: seq<Match>, ys: seq<Match>)
    ensures DnsQueries(xs + ys) == DnsQueries(xs) + DnsQueries(ys)
    decreases |xs|
  {
    if xs != [] {
      assert (xs + ys)[0] == xs[0];
      assert (xs + ys)[1..] == xs[1..] + ys;
      DnsQueriesAppend(xs[1..], ys);
    } else {
      assert xs + ys == ys;
    }
  }

  /** A DNS match always adds its query at the end, even when the same query is already listed. */
  lemma DnsQueriesKeepDuplicates(ms: seq<Match>, m: Match)
    requires IsDnsQuery(m)
    ensures DnsQueries(ms + [m]) == DnsQueries(ms) + [DnsQueryOf(m)]
    ensures DnsQueryOf(m) in DnsQueries(ms) ==> multiset(DnsQueries(ms + [m]))[DnsQueryOf(m)] >= 2
  {
    DnsQueriesAppend(ms, [m]);
    assert [m][1..] == [];
    assert DnsQueries([m]) == [DnsQueryOf(m)] + DnsQueries([]);
  }

  method ProcessDnsclient3006(matches: seq<Match>) returns (updated: seq<DnsQuery>)
    ensures updated == DnsQueries(matches)
  {
    updated := [];
    var i := 0;
    while i < |matches|
      invariant 0 <= i <= |matches|
      invariant DnsQueries(matches) == updated + DnsQueries(matches[i..])
    {
      var m := matches[i];
      assert matches[i..][1..] == matches[i + 1..];
      i := i + 1;
      if !IsDnsQuery(m) {
        continue;
      }
      var queryName := Get(m.fields, "QueryName");
      var queryType := QueryTypeName(Get(m.fields, "QueryType"));
      updated := updated + [DnsQuery(queryName, queryType, m.threadId, m.processName)];
    }
    assert matches[i..] == [];
  }

  /** A valloc and a thread start of the same process and thread, neither with a zero identifier. */
  predicate SameThread(alloc: Match, ts: Match) {
    alloc.processId != PyInt(0) && alloc.threadId != PyInt(0)
    && ts.processId != PyInt(0) && ts.threadId != PyInt(0)
    && ts.processId == alloc.processId && ts.threadId == alloc.threadId && ts.processName == alloc.processName
  }

  /** A VirtualMem match the cross-reference reads the length of (its identifiers are nonzero) but that has none. */
  predicate LengthMissing(alloc: Match) {
    EtwMemory.IsVirtualAlloc(alloc) && alloc.processId != PyInt(0) && alloc.threadId != PyInt(0) && "Length" !in alloc.fields
  }

  /**
   * `xref_threads_and_valloc`: every allocation with a truthy length is
   * compared with every thread start; a pair of the same process and thread
   * is reported (`alerts`) but never added to the returned collection, so
   * the result is always empty. An allocation without a length raises.
   */
  method XrefThreadsAndValloc(matches: seq<Match>) returns (r: Result<seq<PyValue>>, alerts: seq<(PyValue, PyValue, PyValue)>)
    ensures r.Success? ==> r.value == []
    ensures r.Failure? <==> exists alloc | alloc in matches :: LengthMissing(alloc)
    ensures forall a | a in alerts :: exists alloc, ts | alloc in matches && ts in matches ::
      EtwMemory.IsVirtualAlloc(alloc) && ts.task == ThreadTask && ts.opcode == StartOpcode && SameThread(alloc, ts)
      && a == (alloc.processName, alloc.processId, alloc.threadId)
  {
    var suspiciousProcs: seq<PyValue> := [];
    alerts := [];
    var i := 0;
    while i < |matches|
      invariant 0 <= i <= |matches|
      invariant suspiciousProcs == []
      invariant forall k | 0 <= k < i :: !LengthMissing(matches[k])
      invariant forall a | a in alerts :: exists alloc, ts | alloc in matches && ts in matches ::
        EtwMemory.IsVirtualAlloc(alloc) && ts.task == ThreadTask && ts.opcode == StartOpcode && SameThread(alloc, ts)
        && a == (alloc.processName, alloc.processId, alloc.threadId)
    {
      var alloc := matches[i];
      i := i + 1;
      if !EtwMemory.IsVirtualAlloc(alloc) || alloc.processId == PyInt(0) || alloc.threadId == PyInt(0) {
        continue;
      }
      if "Length" !in alloc.fields {
        assert LengthMissing(matches[i - 1]);
        return Failure("KeyError: 'Length'"), alerts;
      }
      if !Truthy(alloc.fields["Length"]) {
        continue;
      }
      var j := 0;
      while j < |matches|
        invariant 0 <= j <= |matches|
        invariant forall a | a in alerts :: exists alloc, ts | alloc in matches && ts in matches ::
          EtwMemory.IsVirtualAlloc(alloc) && ts.task == ThreadTask && ts.opcode == StartOpcode && SameThread(alloc, ts)
          && a == (alloc.processName, alloc.processId, alloc.threadId)
      {
        var ts := matches[j];
        j := j + 1;
        if !(ts.task == ThreadTask && ts.opcode == StartOpcode) {
          continue;
        }
        if ts.processId == PyInt(0) || ts.threadId == PyInt(0) {
          continue;
        }
        if ts.processId != alloc.processId || ts.threadId != alloc.threadId || ts.processName != alloc.processName {
          continue;
        }
        alerts := alerts + [(alloc.processName, alloc.processId, alloc.threadId)];
      }
    }
    assert forall alloc | alloc in matches :: !LengthMissing(alloc);
    r := Success(suspiciousProcs);
  }

  datatype EtwReport = EtwReport(
    matches: seq<Match>,
    wininet: EtwWininet.WininetReport,
    valloc: EtwMemory.VallocStats,
    dnsclient3006: seq<DnsQuery>,
    suspiciousAllocs: seq<PyValue>)

  /**
   * `process_etw_logs` over the events of all logs, in order: the matches,
   * then the WinINet, virtual-memory and DNS passes and the cross-reference,
   * each on all matches. The virtual-memory pass is the one as written, so a
   * log without VirtualMem allocations makes the whole processing raise.
   * The report is produced exactly when no pass raises.
   */
  method ProcessEtwLogs(rules: seq<Rule>, events: seq<Event>, decode: EtwWininet.PayloadDecoder) returns (r: Result<EtwReport>)
    ensures var ms := AllMatches(rules, events);
      r.Success? <==> EtwWininet.WininetOf(ms, decode).Success? && EtwMemory.ProcessVallocDataAsWritten(ms).Success?
                      && !(exists alloc | alloc in ms :: LengthMissing(alloc))
    ensures r.Success? ==> r.value.matches == AllMatches(rules, events)
    ensures r.Success? ==> Success(r.value.wininet) == EtwWininet.WininetOf(AllMatches(rules, events), decode)
    ensures r.Success? ==> Success(r.value.valloc) == EtwMemory.ProcessVallocDataAsWritten(AllMatches(rules, events))
    ensures r.Success? ==> r.value.dnsclient3006 == DnsQueries(AllMatches(rules, events))
    ensures r.Success? ==> r.value.suspiciousAllocs == []
  {
    var matches, eventCount, providers, taskNames := MatchEvents(rules, events);
    var wininet := EtwWininet.ProcessWininetData(matches, decode);
    if wininet.Failure? {
      return Failure(wininet.error);
    }
    var valloc := EtwMemory.ProcessVallocDataLogged(matches);
    if valloc.Failure? {
      return Failure(valloc.error);
    }
    var dns := ProcessDnsclient3006(matches);
    var suspicious, alerts := XrefThreadsAndValloc(matches);
    if suspicious.Failure? {
      return Failure(suspicious.error);
    }
    r := Success(EtwReport(matches, wininet.value, valloc.value, dns, suspicious.value));
  }
}
