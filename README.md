# Citadel triage core in Dafny

Citadel is a malware triage system. This project models its core in Dafny and proves properties about that model. The core has two parts:

- **The Windows scanning agent.** `Static.Citadel` receives tasks, scans each payload with Microsoft Defender and reports back.
  - The default scan grows a prefix in steps of 1024 bytes and stops at the first detection.
  - The thorough scan steps by 8198 bytes. A start/end state machine records at most two malicious byte ranges.
  - A window heuristic cuts the "x-y" bytes from the detecting prefix.
  - The byte arrays are reported as base64 (RFC 4648, section 4).
- **The data-processing helpers of the Python and TypeScript side:**
  - the hex/ASCII dump of base64 bytes;
  - ETW rule matching, the WinINet handle-table join, the per-process virtual-memory statistics and the DNS query list;
  - a function-mapping lookup over a TSV file and a PE file's imports;
  - radare2's segment-based address translation;
  - Detect-It-Easy result bucketing;
  - TLSH similarity filtering, sorting and reporting;
  - the batching of a directory walk;
  - the capa-report parsing and formatting helpers of the web front end.

The Defender engine, the AMSI scan, HTTP, MongoDB, Detect-It-Easy's scanner and the TLSH distance function are not modelled as code. Each becomes a parameter (a function value or an input sequence) that the model calls.

Modules follow the source files:

| module | models |
|---|---|
| `Defender` | `agents/Citadel/Static.Citadel/Defender.cs` |
| `Program` | `agents/Citadel/Static.Citadel/Program.cs` |
| `Base64` | `Convert.ToBase64String` and a strict decoder, its inverse |
| `BytesHandler` | `citadel/bytes_handler.py` |
| `EtwEvents`, `EtwWininet`, `EtwMemory`, `Etw` | `citadel/etw.py` |
| `ImportCategories` | `citadel/import_catergories.py` |
| `Radare2` | `citadel/pe/radare2.py` |
| `Die` | `citadel/pe/die.py` |
| `LookupTlsh` | `citadel/lookup_tlsh.py` |
| `ParseMassBins` | `scripts/parse_mass_bins.py` |
| `CapaUtils` | `frontend/lib/capa-utils.ts` |
| `Wrappers`, `Text`, `Collections`, `PyValues` | shared helpers: Option/Result, string split/join/strip/lower, insertion-ordered maps (Python dicts), Python JSON values |

Code that loops over mutable state is modelled as methods with loops. Each method's `ensures` ties its result to a recursive specification function. Lemmas then prove the source's promises about that function. The agent's loop variables are bundled into a state record (`ThoroughState`, `WininetState`). `PayloadFile` (Detect-It-Easy) and `Task` (function mappings) are classes whose fields the methods update.

Where the code and a plain reading of its intent disagree, the model follows the code:

- The "clamp to length" branches of both scan loops can never run, so a trailing partial step is never scanned.
- The thorough scan's start index is overwritten on every detection.
- The x-y window can be up to one and a half steps long.
- In `parseCapaReport` an empty-string name stays `""`. Only a falsy non-string name becomes "Unnamed Capability".

## Model

| member | source | states |
|---|---|---|
| Defender.TitleOfExitCode | agents/Citadel/Static.Citadel/Defender.cs:59-64 | Exit code 0 is NOT_DETECTED, 2 is THREAT_DETECTED, and every other code is ERROR (each as an iff). |
| Defender.ThreatNameOfFirst | agents/Citadel/Static.Citadel/Defender.cs:44-57 | The threat name is "" when no line holds "Threat  " with more than 19 space-separated fields. Otherwise it is field 19 of the first such line. |
| Defender.ParseThreatName | agents/Citadel/Static.Citadel/Defender.cs:44-57 | The line loop with its early `break` computes the first-line threat name of the output split on CRLF. |
| Defender.ScanFileWithDefender | agents/Citadel/Static.Citadel/Defender.cs:20-71 | One scan yields the engine's title and exactly one threat name. |
| Defender.GetXyBytes | agents/Citadel/Static.Citadel/Defender.cs:248-292 | A null chunk, or an `upper` of 0, gives null. For c ≤ len < 2c the window is `chunk[0 .. len−c+c/2)`. For len ≥ 2c it is `chunk[len−2c .. len−c+c/2)`. The window is at most 1.5·c long. The copy throws exactly when len < c/2. |
| Defender.DefaultScanDetected | agents/Citadel/Static.Citadel/Defender.cs:89-117 | The default scan stops at the first detecting multiple of 1024. The result is that scan with the prefix as zero-x bytes and its window as x-y bytes. |
| Defender.DefaultScanClean | agents/Citadel/Static.Citadel/Defender.cs:75-118 | Without a detection, a file under 1024 bytes gives NOT_COMPLETED with nothing else set. Otherwise the result is exactly the scan of the largest multiple of 1024 not above the length, with no names accumulated. |
| Defender.GetDefaultDefenderScanResults | agents/Citadel/Static.Citadel/Defender.cs:73-125 | The loop computes the default scan. The scanned prefix lengths are exactly 1024, 2048, … and stop at a detection or at the last full step. |
| Defender.FirstSightingsMember | agents/Citadel/Static.Citadel/Defender.cs:168-180 | A name is collected exactly when it is non-empty and some scan reported it. |
| Defender.FirstSightingsDistinct | agents/Citadel/Static.Citadel/Defender.cs:168-180 | The collected names hold no duplicate and no empty name. |
| Defender.AddThreatNamesSightings | agents/Citadel/Static.Citadel/Defender.cs:168-180 | Adding one more scan's names to the collection gives the first sightings of the longer name sequence. |
| Defender.CollectThreatNames | agents/Citadel/Static.Citadel/Defender.cs:168-180 | The inner names loop appends each name not yet collected and not empty. |
| Defender.ThoroughIteration | agents/Citadel/Static.Citadel/Defender.cs:156-202 | One loop pass scans the prefix, remembers it, collects its names and advances the start/end state machine. |
| Defender.ThoroughLoop | agents/Citadel/Static.Citadel/Defender.cs:149-208 | The loop keeps its invariant. It ends past the last full step, or right after a second range (then one step after that range's clean scan). |
| Defender.FinishThoroughScan | agents/Citadel/Static.Citadel/Defender.cs:213-243 | After the loop, each range is encoded and the names and title are set. Only without regions are the last prefix and its window kept. |
| Defender.GetThoroughDefenderScanResults | agents/Citadel/Static.Citadel/Defender.cs:127-246 | The thorough scan method computes the thorough-scan specification function. |
| Defender.ThoroughRangesShape | agents/Citadel/Static.Citadel/Defender.cs:184-207 | There are at most two ranges. Each is step-aligned with 0 ≤ start < end ≤ length − 8198. The ranges are increasing and disjoint. |
| Defender.ThoroughRangeWitnessed | agents/Citadel/Static.Citadel/Defender.cs:184-202 | Range (s, e) has a detection at prefix s+8198 and a clean scan at e+8198. Every step strictly between them ended in an error. |
| Defender.ThoroughRangeOneStep | agents/Citadel/Static.Citadel/Defender.cs:184-193 | When the scan right after the detection is clean, the range is exactly one step long. |
| Defender.ThoroughRangesEmpty | agents/Citadel/Static.Citadel/Defender.cs:184-202 | No range is found iff no step-aligned detected prefix is followed by a longer clean one. |
| Defender.ThoroughScansPerformed | agents/Citadel/Static.Citadel/Defender.cs:149-208 | With fewer than two ranges every full step is scanned. With two, scanning stops right after the second range closes. |
| Defender.ThoroughScanResult | agents/Citadel/Static.Citadel/Defender.cs:213-243 | THREAT_DETECTED iff a range was found. There is one region per range, in order, each the base64 encoding of `fileBytes[start..end)`. Zero-x and x-y are null when there are regions, and when no scan ran because the file is shorter than 8198 bytes. |
| Defender.ThoroughThreatNames | agents/Citadel/Static.Citadel/Defender.cs:227 | The reported names are exactly the non-empty names of the performed scans, without duplicates. |
| Base64.DecodeEncode | agents/Citadel/Static.Citadel/Defender.cs:222 | Decoding the encoding of any byte sequence gives the bytes back. |
| Base64.EncodeDecode | agents/Citadel/Static.Citadel/Program.cs:136 | A string that decodes is the encoding of what it decodes to. |
| Base64.DecodeIffEncode | agents/Citadel/Static.Citadel/Program.cs:141 | `Decode(s) == Some(b)` iff `s == Encode(b)`. |
| Program.ServerUrl | agents/Citadel/Static.Citadel/Program.cs:16-22 | With no argument there is no server URL, so no polling. Otherwise the URL is the first argument. |
| Program.GetTasks | agents/Citadel/Static.Citadel/Program.cs:81-95 | A response that does not deserialise gives an empty task list. |
| Program.SelectScanModes | agents/Citadel/Static.Citadel/Program.cs:110-121 | Without thorough mode only the default scan runs. In thorough mode the thorough result is kept iff it found a range. Otherwise it is replaced wholesale, names included, by the default scan. |
| Program.Base64OrEmpty | agents/Citadel/Static.Citadel/Program.cs:131-142 | A null byte array gives "". Otherwise the string decodes back to the bytes. |
| Program.ReportContents | agents/Citadel/Static.Citadel/Program.cs:144-159 | The report has status "Completed" and echoes Uuid, TimeSent, FileSha256, FileName and EnableThoroughDefender. It carries the chosen scan's title, names, regions and base64 bytes, and the AMSI result. |
| Program.ProcessTask | agents/Citadel/Static.Citadel/Program.cs:97-162 | A null payload gives false with nothing sent. Otherwise the report is sent and the result is the update call's answer. |
| Program.TasksWithFileNameSpec | agents/Citadel/Static.Citadel/Program.cs:46-52 | Exactly the tasks with a non-empty file name are processed. |
| Program.PollRound | agents/Citadel/Static.Citadel/Program.cs:38-69 | One round processes the tasks with a file name, in order. Each outcome is that task's processing result. |
| BytesHandler.HexByteRoundTrip | citadel/bytes_handler.py:65 | Each byte prints as two lower-case hex digits that read back as the byte. |
| BytesHandler.HexPartLayout | citadel/bytes_handler.py:65 | The hex part holds byte i at columns 3i and 3i+1, with single spaces between them. Its length is 3n−1 (0 when empty). |
| BytesHandler.AsciiPartLayout | citadel/bytes_handler.py:68 | Bytes 32..126 show as themselves and every other byte as '.', one character per byte. |
| BytesHandler.LeftJustify | citadel/bytes_handler.py:71 | `:<48` pads with spaces up to the width and never cuts. |
| BytesHandler.DumpLineLayout | citadel/bytes_handler.py:71 | A line is the hex part padded to 48 columns, a space, then the ASCII part. |
| BytesHandler.DumpLineNoBreak | citadel/bytes_handler.py:71 | No dump line contains a line break. |
| BytesHandler.LinesShape | citadel/bytes_handler.py:61-62 | There are ⌈n/16⌉ lines, and line k renders bytes 16k up to 16k+16. |
| BytesHandler.HexDumpRoundTrip | citadel/bytes_handler.py:60-73 | Empty input gives "", and only empty input does. Splitting on "\n" gives the lines back (no trailing newline). The bytes can be read back from the dump. |
| BytesHandler.GetAsciiBytes | citadel/bytes_handler.py:45-73 | The loop builds the dump of the decoded input, and invalid base64 gives "". |
| EtwEvents.ProjectFields | citadel/etw.py:459-462 | The projection's keys are exactly the rule's fields, with None for missing data. It is empty iff the field list is. |
| EtwEvents.EventMatchesSpec | citadel/etw.py:451-462 | An event's matches are one per rule that names its provider, task and opcode and has a non-empty field list. There are at most as many as rules, and each has non-empty fields. |
| EtwEvents.AllMatchesAppend | citadel/etw.py:433-476 | Matching two logs in turn gives the matches of both, in order. |
| EtwEvents.MatchEvent | citadel/etw.py:451-476 | The rule loop yields the event's matches in rule order. |
| EtwEvents.MatchEvents | citadel/etw.py:433-476 | The event loop yields all matches, counts every event, and collects every provider and task name. |
| EtwMemory.VirtualAllocEvents | citadel/etw.py:29-33 | The filter keeps exactly the Windows Kernel VirtualMem matches. |
| EtwMemory.TallyKeys | citadel/etw.py:36-54 | The per-process table has one entry per process, in order of first sighting. |
| EtwMemory.TallyEntry | citadel/etw.py:46-54 | A process's entry counts its allocations, sums their lengths and lists them in order. |
| EtwMemory.TallySpec | citadel/etw.py:36-54 | Both facts above, for the whole table. |
| EtwMemory.HighCountProcs | citadel/etw.py:58-60 | Listed iff the count is strictly greater than 10, with that count. |
| EtwMemory.LargeAllocProcs | citadel/etw.py:62-66 | Listed iff the total is strictly greater than 1048576 bytes, with that total. |
| EtwMemory.LargeAllocs | citadel/etw.py:68-72 | An allocation is listed, with its process, iff it is strictly greater than 1048576 bytes. |
| EtwMemory.CollectAllocations | citadel/etw.py:46-54 | The first-pass loop succeeds iff every event has an integer Length. It then builds the table and one size per event. |
| EtwMemory.VallocStatsSpec | citadel/etw.py:27-89 | The three threshold lists hold exactly the processes or allocations above their strict thresholds, with their counts and totals. |
| EtwMemory.NoAllocationsRaise | citadel/etw.py:57-85 | Without VirtualMem matches the written code raises, while the corrected version returns the empty lists. |
| EtwMemory.EmptyLogRaises | citadel/etw.py:82 | Concretely, an empty match list makes the written code divide by zero. |
| EtwMemory.VersionsAgree | citadel/etw.py:57-89 | With at least one allocation, the written and corrected versions agree. |
| EtwMemory.ProcessVallocData | citadel/etw.py:27-89 | The method computes the corrected statistics. |
| EtwMemory.ProcessVallocDataLogged | citadel/etw.py:27-89 | `process_valloc_data` as written: the corrected pass followed by the summary log's division, which raises when there is no allocation. |
| EtwMemory.WrittenSuccessHasLengths | citadel/etw.py:46-54 | When the written pass succeeds, every VirtualMem match has an integer Length. |
| EtwWininet.RecordStepInv | citadel/etw.py:199-231 | Recording a request or a response keeps the handle-table invariant. |
| EtwWininet.StepInv | citadel/etw.py:194-281 | One loop pass keeps the invariant. |
| EtwWininet.HandleStepInv | citadel/etw.py:233-281 | The handle tables stay well formed. Roots and requests are stored only under truthy handles, and connections only with truthy handle and parent. |
| EtwWininet.WalkInv | citadel/etw.py:194-281 | The walk keeps the invariant. |
| EtwWininet.StepFails | citadel/etw.py:217-231 | One pass fails exactly on a captured response whose truthy payload does not decode. |
| EtwWininet.WalkFails | citadel/etw.py:194-231 | The walk fails iff some captured payload is undecodable. |
| EtwWininet.StepRecords | citadel/etw.py:199-231 | One pass appends that match's request record and response record, if any, to the lists so far. |
| EtwWininet.WalkRecords | citadel/etw.py:194-231 | A completed walk lists exactly the request records of `RequestsOf` and the response records of `ResponsesOf`, in log order. |
| EtwWininet.ResponsesOfSpec | citadel/etw.py:217-231 | Every response record comes from a WinINet capture match whose truthy payload decodes to the record's body, with that match's thread. |
| EtwWininet.RequestsOfSpec | citadel/etw.py:199-215 | Every request record has a truthy URL and verb and comes from a WinINet usage-log match. |
| EtwWininet.UpdateRequestSpec | citadel/etw.py:257-281 | A request handle is created on first sighting with the event's parent, thread and process, which then stay. Verb, object name, version and referrer change only to non-None values. No other entry changes. |
| EtwWininet.CompleteKeys | citadel/etw.py:284-286 | Only request handles with both verb and object name are enriched. |
| EtwWininet.EnrichOne | citadel/etw.py:284-307 | A handle without verb or object name yields nothing. It fails iff its connection's service is not a string. Otherwise one record with the handle's verb, version, referrer, thread and process; its connection, that connection's root and the root's user agent; and the URL `service.lower()://server:port` + object name ("http://None:None" + object name with no connection). |
| EtwWininet.EnrichAllFails | citadel/etw.py:284-309 | Enrichment fails iff some complete request's connection has a non-string service. |
| EtwWininet.EnrichAllRecords | citadel/etw.py:284-309 | There is one enriched record per complete request handle, in handle order, each describing its handle. |
| EtwWininet.UrlWithoutConnection | citadel/etw.py:289-296 | Without a connection the URL starts "http://None:None". |
| EtwWininet.ServersFromAppend | citadel/etw.py:311-320 | Collecting servers appends each HTTP connection's "name:port" unless it is already listed. |
| EtwWininet.ServersSpec | citadel/etw.py:311-320 | The servers are exactly the distinct "name:port" strings of HTTP-service connections, in first-seen order. |
| EtwWininet.WininetSpec | citadel/etw.py:179-355 | The report's requests, its decoded responses, distinct servers and one enriched record per complete handle. It fails exactly on an undecodable payload or a non-string service. |
| EtwWininet.RecordRequestHandle | citadel/etw.py:257-281 | The in-place request-handle update computes its specification. |
| EtwWininet.RecordMatch | citadel/etw.py:199-231 | The request/response branch of the loop body. |
| EtwWininet.TrackHandles | citadel/etw.py:233-281 | The handle-table branch of the loop body. |
| EtwWininet.ProcessMatch | citadel/etw.py:194-281 | One loop pass. |
| EtwWininet.WalkMatches | citadel/etw.py:194-281 | The match loop computes the walk. |
| EtwWininet.EnrichRequests | citadel/etw.py:283-309 | The enrichment loop computes the enriched records. |
| EtwWininet.CollectServers | citadel/etw.py:311-320 | The server loop computes the distinct servers. |
| EtwWininet.ProcessWininetData | citadel/etw.py:179-355 | `process_wininet_data` computes the WinINet report. |
| Etw.QueryTypeNameSpec | citadel/etw.py:101-130 | A known type code becomes its name, and any other value passes through unchanged. |
| Etw.DnsRecordTypesInjective | citadel/etw.py:101-121 | Different codes have different names in the table. |
| Etw.DnsQueriesCount | citadel/etw.py:94-139 | There is one query per DNS-Client 3006 match, each built from a match. |
| Etw.DnsQueriesAppend | citadel/etw.py:94-139 | The query list of two logs in sequence is the concatenation of their query lists. |
| Etw.DnsQueriesKeepDuplicates | citadel/etw.py:123-139 | A further 3006 match appends its query to any list, so a query already present then occurs at least twice (no dedup). |
| Etw.ProcessDnsclient3006 | citadel/etw.py:92-176 | The loop computes the DNS query list. |
| Etw.XrefThreadsAndValloc | citadel/etw.py:358-405 | The result is always empty. Every alert pairs a valloc with a thread start of the same nonzero process and thread. It raises (KeyError) iff some valloc with nonzero process and thread ids has no Length field. |
| Etw.ProcessEtwLogs | citadel/etw.py:408-501 | A report is produced iff the WinINet pass, the virtual-memory pass as written (which raises on a log without VirtualMem matches) and the cross-reference all succeed. It then holds all matches and the WinINet, valloc, DNS and empty suspicious-alloc results over them. |
| ImportCategories.StrippedHeaders | citadel/import_catergories.py:53 | Each header key is stripped. |
| ImportCategories.StripKeysDomain | citadel/import_catergories.py:53 | The row's keys are exactly the stripped header keys. |
| ImportCategories.StripKeysLastWins | citadel/import_catergories.py:53 | Of two headers that strip alike, the later column's value wins. |
| ImportCategories.RowEntrySpec | citadel/import_catergories.py:55-74 | A row is skipped iff its title, description or category is missing or empty. Otherwise it stores the stripped title, description and category. |
| ImportCategories.StoredSpec | citadel/import_catergories.py:51-74 | The stored entries are exactly those of the rows that are not skipped. |
| ImportCategories.ParseRowsStored | citadel/import_catergories.py:47-76 | Reading the rows equals writing the stored entries into the dict in order. |
| ImportCategories.ParseRowsSpec | citadel/import_catergories.py:71-74 | The dict is well formed, and its keys are the distinct stored titles in order of first row. |
| ImportCategories.ParseRowsLastWins | citadel/import_catergories.py:71-74 | A later row with the same title overwrites the earlier one. |
| ImportCategories.ParseTsvToDict | citadel/import_catergories.py:39-76 | The row loop computes the parsed mapping. |
| ImportCategories.MappingOfSpec | citadel/import_catergories.py:102-126 | A title with a single "!" yields at most one mapping. It yields one iff some import matches its DLL half without case and its function half exactly. The mapping carries that title's description and category. |
| ImportCategories.SplitTitle | citadel/import_catergories.py:105 | A title with one "!" splits into two "!"-free halves that join back to it. |
| ImportCategories.MappingsFromFails | citadel/import_catergories.py:105 | The lookup raises iff some title has two or more "!". |
| ImportCategories.MappingsFromSpec | citadel/import_catergories.py:101-126 | The mappings line up one-to-one with the selected titles, in mapping order. |
| ImportCategories.SelectedDistinct | citadel/import_catergories.py:101 | Selected titles are distinct, so no title contributes twice. |
| ImportCategories.FindImport | citadel/import_catergories.py:109-126 | The inner loop finds a match iff some import matches, stopping at the first. |
| ImportCategories.MapTitle | citadel/import_catergories.py:105-126 | One outer-loop pass contributes the title's mapping. |
| ImportCategories.CollectMappings | citadel/import_catergories.py:101-126 | The outer loop computes the mappings, or the unpacking failure. |
| ImportCategories.LookupSpec | citadel/import_catergories.py:95-126 | Without the loops: the lookup fails iff a stored title has two or more "!". Otherwise there is one mapping per selected distinct title, each describing its entry. |
| ImportCategories.GetFunctionMapping | citadel/import_catergories.py:79-131 | The task is unchanged when the file is unavailable, the lookup raises, or nothing matches. Otherwise its mappings are replaced by the matches. |
| Radare2.CalculateBaseAddrSpec | citadel/pe/radare2.py:118-130 | The first segment with paddr ≤ offset < paddr+size gives vaddr + (offset − paddr). With no such segment the offset comes back unchanged. |
| Radare2.SizelessSegmentNeverMatches | citadel/pe/radare2.py:121-127 | A segment without positive size (a missing size defaults to 0) holds no offset, and inserting it anywhere in the segment list leaves every translation unchanged. |
| Radare2.TranslationKeepsDistance | citadel/pe/radare2.py:121-127 | Two offsets whose first holding segment is the same, at any position in the list, keep their distance. |
| Die.DetectedAccepted | citadel/pe/die.py:36-51 | A value yields an entry iff its name is non-empty and not "unknown", its version is non-empty and its lowered type is non-empty. |
| Die.YieldSpec | citadel/pe/die.py:36-56 | An entry carries the value's fields with the type lower-cased. |
| Die.LowerTwice | citadel/pe/die.py:48 | Lower-casing is idempotent, so stored types are in lower case. |
| Die.ValueEntriesSpec | citadel/pe/die.py:35-56 | A values list yields exactly its accepted values' entries. |
| Die.EntriesSpec | citadel/pe/die.py:29-56 | The detects yield exactly the entries of their values. A detect with no values yields none. |
| Die.PlaceAllSpec | citadel/pe/die.py:57-70 | Each of the six lists grows by exactly the entries of its type, in order. Other types are dropped. |
| Die.OfTypeMembers | citadel/pe/die.py:57-70 | A list holds exactly the entries of its type. |
| Die.PayloadFile.Add | citadel/pe/die.py:57-70 | Appends the entry to the list of its type (or drops it) in place. |
| Die.PayloadFile.AddValues | citadel/pe/die.py:35-70 | The values loop places every accepted value's entry. |
| Die.PayloadFile.AddDetects | citadel/pe/die.py:29-70 | The detects loop places every entry. |
| Die.GetDieData | citadel/pe/die.py:9-72 | None iff the scan output is empty or its decoded JSON is falsy. Otherwise a fresh payload file whose six lists are the accepted entries bucketed by type, in encounter order. |
| LookupTlsh.CandidateSpec | citadel/lookup_tlsh.py:32-43 | An entry is kept iff its key is not "_id", the diff succeeds and the distance is at most the maximum. |
| LookupTlsh.RecordMatchesSpec | citadel/lookup_tlsh.py:32-43 | A record yields exactly its kept entries. |
| LookupTlsh.MatchesSpec | citadel/lookup_tlsh.py:31-43 | All records yield exactly their kept entries. |
| LookupTlsh.InsertSorted | citadel/lookup_tlsh.py:45-46 | Insertion keeps the list in ascending distance. |
| LookupTlsh.InsertElements | citadel/lookup_tlsh.py:45-46 | Insertion adds exactly the element. |
| LookupTlsh.InsertStable | citadel/lookup_tlsh.py:45-46 | Insertion places an element after every element of its own distance. |
| LookupTlsh.SortByDistanceSpec | citadel/lookup_tlsh.py:45-46 | The sort is ascending by distance and a permutation, and it is stable (equal distances keep input order). |
| LookupTlsh.CollectRecord | citadel/lookup_tlsh.py:32-43 | The entry loop appends the record's kept entries. |
| LookupTlsh.FindSimilarHashes | citadel/lookup_tlsh.py:10-48 | The search returns the kept entries sorted by distance. |
| LookupTlsh.MatchesWithin | citadel/lookup_tlsh.py:37-41 | Every result is within the maximum distance, is not the "_id" key, and carries its diff. |
| LookupTlsh.FindSimilarHashesSpec | citadel/lookup_tlsh.py:10-48 | The results are sorted and are a permutation of the kept entries. |
| LookupTlsh.DistanceColour | citadel/lookup_tlsh.py:80-97 | Distance 0 is bright_red, ≤ input/2 (true division) is dark_orange3, and anything else is bright_yellow (each as an iff). |
| LookupTlsh.ResultLines | citadel/lookup_tlsh.py:71-77 | There is one line per result, in order. |
| LookupTlsh.ReportLinesSpec | citadel/lookup_tlsh.py:51-77 | Empty results give "No similar hashes found". Otherwise: the count line, a notice iff there are more than 20 results, then one line for each of the first 20 at most. |
| ParseMassBins.FilesSpec | scripts/parse_mass_bins.py:16-18 | Exactly the file entries are kept. |
| ParseMassBins.FilesAppend | scripts/parse_mass_bins.py:16-20 | The filter extends entry by entry, in order. |
| ParseMassBins.FullSnoc | scripts/parse_mass_bins.py:22-25 | Yielding a full batch keeps every batch full. |
| ParseMassBins.FinishBatches | scripts/parse_mass_bins.py:27-28 | The final partial batch is added only when non-empty. |
| ParseMassBins.AddFile | scripts/parse_mass_bins.py:20-25 | Appending a file and yielding at the batch size keeps the order and keeps the open batch under the size. |
| ParseMassBins.BatchProcessFiles | scripts/parse_mass_bins.py:11-28 | The batches concatenate to the file entries in order. Every batch but the last has exactly `batch_size` items, and none is empty. |
| CapaUtils.ParseCapaReportDefaults | frontend/lib/capa-utils.ts:4-14 | Parsing throws only for a null or undefined report or nested entry. A string name is kept, "" included. A missing or falsy non-string name becomes "Unnamed Capability". Non-array list fields become []. |
| CapaUtils.ParseTechniquesSpec | frontend/lib/capa-utils.ts:9 | The techniques list fails iff some entry is null or undefined. Otherwise it keeps one parsed record per entry. |
| CapaUtils.ParseCatalogsSpec | frontend/lib/capa-utils.ts:10 | The behaviour-catalog list fails iff some entry is null or undefined. Otherwise it keeps one parsed record per entry. |
| CapaUtils.StringsOfStringsJs | frontend/lib/capa-utils.ts:11 | An array of strings maps back to itself. |
| CapaUtils.TechniqueRoundTrip | frontend/lib/capa-utils.ts:16-24 | Parsing the JSON of a technique gives it back. |
| CapaUtils.CatalogRoundTrip | frontend/lib/capa-utils.ts:26-34 | Parsing the JSON of a behaviour catalog gives it back. |
| CapaUtils.TechniquesRoundTrip | frontend/lib/capa-utils.ts:9 | Round trip for the techniques list. |
| CapaUtils.CatalogsRoundTrip | frontend/lib/capa-utils.ts:10 | Round trip for the catalogs list. |
| CapaUtils.ReportRoundTrip | frontend/lib/capa-utils.ts:4-14 | Parsing the JSON of a report gives it back. |
| CapaUtils.ParseIdempotent | frontend/lib/capa-utils.ts:4-14 | Re-parsing a parsed report changes nothing. |
| CapaUtils.FormatMitreTechniqueCases | frontend/lib/capa-utils.ts:36-42 | The non-empty fields among tid, technique and subtechnique are joined in order with " - ". "Unknown Technique" when all three are empty. |
| CapaUtils.GridHeightBounds | frontend/lib/capa-utils.ts:45-50 | At least one row is always reserved. With pagination, more than ten rows give exactly a full ten-row grid plus the 56-pixel controls, and up to ten rows give the same height as without pagination, which never exceeds that. Without pagination the height grows by one row height per row. |

## Left out

- Process spawning, the 10-minute timeout and kill, temp files and directories (Defender.cs). The engine is a function from the scanned bytes to an exit code and standard output.
- AMSI (`Amsi.cs`) is a P/Invoke call. Its verdict is a function parameter.
- HTTP (`Http.cs`), the endless polling loop with its sleeps, and JSON deserialisation. Payload download, the update call and the parsed task list are parameters. One poll round is modelled.
- `DateTimeOffset.UtcNow` is a parameter `now`.
- Logging and console output are not modelled, including the rich tables and the DNS/URL de-duplication that only affects the printed tables (etw.py).
- Etw.ProcessDnsclient3006: the printed table raises rich's NotRenderableError for a non-string cell, such as an unmapped integer QueryType like 65 (etw.py:163-168). The model returns the query list; printing is not modelled.
- EtwWininet.ProcessWininetData: the printed URL table raises NotRenderableError for a non-string, non-None process name or URL (etw.py:342); rich prints a None cell as blank. The model returns the report.
- Program.GetTasks: a deserialisation failure is an input (None), not a parsed string.
- `base64.b64decode` leniency (bytes_handler.py:55). The model decodes strict RFC 4648 text only, and any other input counts as invalid.
- BytesHandler.GetAsciiBytes: a non-ASCII `str` makes `b64decode` raise ValueError, which escapes because bytes_handler.py:56 catches only `binascii.Error`. The model treats it as invalid and returns "".
- ETW field values are None, bool, int or str only. A field holding a float, a list or a dict is outside the model.
- The UTF-8 decoding of captured payloads (etw.py:224) is a decoder parameter that may fail.
- The average allocation (etw.py:82) is floating point and is left out. Only its division-by-zero failure is modelled.
- Loading rules and reading JSONL files (etw.py:14-25, 426-436): rules and events are inputs.
- The mapping-file download (import_catergories.py:20-36) is the flag `mappingAvailable`. The TSV file is its rows as the CSV reader gives them. Rows with extra columns (the reader's `None` key) are not modelled.
- ImportCategories.Task: only `function_mappings` is modelled. The rest of `Task` is a record in a model file not part of this model.
- r2pipe and every other radare2 command. Only `_calculate_base_addr` is modelled.
- `die.scan_file` is the `scan` string. `json.loads` is a `parse` function parameter that gives None for a falsy document. A malformed document, where `json.loads` raises, is not modelled. Only string-valued DIE fields are modelled.
- The MongoDB cursor and the TLSH library. Records are sequences of (key, value) pairs. `tlsh.diff` is a function that may fail (ValueError).
- LookupTlsh.FindSimilarHashes: `list.sort` works in place. It is modelled on values, as an insertion sort proved stable.
- The thread pool and the directory walk of `parse_mass_bins.py`. The walk is its entry sequence, and the generator's yields are the list of batches.
- CapaUtils: JavaScript numbers are integers (no floats or NaN). For `String(v)`, numbers print in decimal, booleans print as true/false, and arrays print as comma-joined elements. Objects print as "[object Object]".
- Text.Lower: lower-casing is ASCII only (no Unicode case folding).
- All `.tsx` components, databases, API routes and other modules.

## Findings

| source | as written | input that shows it | evidently intended | confidence | as-written member | corrected member |
|---|---|---|---|---|---|---|
| citadel/etw.py:82 | The summary log divides by `len(all_sizes)` outside the `if all_sizes:` guard. It also reads `high_count_procs`, which is bound only inside that guard (line 85). | A log with no Windows Kernel VirtualMem matches, e.g. no matches at all: ZeroDivisionError. | Return the initial empty statistics when there are no allocations. | not executed | EtwMemory.ProcessVallocDataAsWritten, computed by EtwMemory.ProcessVallocDataLogged, with the counterexample EtwMemory.EmptyLogRaises; Etw.ProcessEtwLogs (etw.py:485) inherits the failure | EtwMemory.VallocStatsOf, computed by EtwMemory.ProcessVallocData and proved by EtwMemory.NoAllocationsRaise |
