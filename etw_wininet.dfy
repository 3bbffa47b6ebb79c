/**
 * The WinINet part of the ETW processing: usage-log requests and captured
 * responses are listed, the root, connection and request handle tables are
 * filled event by event, and every request handle that saw a verb and an
 * object name is joined with its connection and root handles into an
 * enriched record carrying the full URL.
 */
module EtwWininet {
  import opened Wrappers
  import opened Text
  import opened PyValues
  import opened Collections
  import opened EtwEvents

  const WininetProvider: PyValue := PyStr("Microsoft-Windows-WinINet")
  const CaptureProvider: PyValue := PyStr("Microsoft-Windows-WinINet-Capture")
  const UsageLogRequest: PyValue := PyStr("Wininet_UsageLogRequest")
  const CaptureResponse: PyValue := PyStr("EventID(2004)")
  const RootHandleCreated: PyValue := PyStr("WININET_ROOT_HANDLE_CREATED")
  const ConnectHandleCreated: PyValue := PyStr("WININET_CONNECT_HANDLE_CREATED")
  const RequestHandleCreated: PyValue := PyStr("WININET_HTTP_REQUEST_HANDLE_CREATED")
  /** The service name a connection needs for its server to be listed. */
  const HttpService: PyValue := PyStr("HTTP")
  /** The scheme of a request whose connection handle was never seen. */
  const DefaultScheme: string := "http"

  datatype RequestRecord = RequestRecord(url: PyValue, verb: PyValue, headers: PyValue, threadId: PyValue, processName: PyValue)
  datatype ResponseRecord = ResponseRecord(flags: PyValue, threadId: PyValue, processName: PyValue, body: string)
  datatype RootInfo = RootInfo(userAgent: PyValue, accessType: PyValue, proxyBypass: PyValue, threadId: PyValue, processName: PyValue)
  datatype ConnectionInfo = ConnectionInfo(parentHandle: PyValue, serverName: PyValue, serverPort: PyValue, service: PyValue,
                                           threadId: PyValue, processName: PyValue)
  /** A request handle's entry; `None` marks a key the entry does not have yet. */
  datatype RequestInfo = RequestInfo(parentHandle: PyValue, threadId: PyValue, processName: PyValue,
                                     verb: Option<PyValue>, objectName: Option<PyValue>,
                                     httpVersion: Option<PyValue>, referrer: Option<PyValue>)
  datatype Handles = Handles(root: PyValue, connection: PyValue, request: PyValue)
  datatype EnrichedRecord = EnrichedRecord(verb: PyValue, url: string, userAgent: PyValue, httpVersion: PyValue,
                                           referrer: PyValue, threadId: PyValue, processName: PyValue, handles: Handles)
  datatype WininetReport = WininetReport(requests: seq<RequestRecord>, responses: seq<ResponseRecord>,
                                         servers: seq<string>, enrichedRecords: seq<EnrichedRecord>)

  /** The tables and lists built while walking the matches. */
  datatype WininetState = WininetState(
    requests: seq<RequestRecord>,
    responses: seq<ResponseRecord>,
    rootHandles: map<PyValue, RootInfo>,
    connectionHandles: OrderedMap<PyValue, ConnectionInfo>,
    requestHandles: OrderedMap<PyValue, RequestInfo>)

  const InitialState: WininetState := WininetState([], [], map[], EmptyMap(), EmptyMap())

  /** The payload decoder: the UTF-8 text of the base64 payload, `None` when either decoding raises. */
  type PayloadDecoder = PyValue -> Option<string>

  predicate IsWininet(m: Match) {
    m.provider == WininetProvider || m.provider == CaptureProvider
  }

  /** The request record a usage-log match adds, if its URL and verb are set. */
  function RequestOf(m: Match): seq<RequestRecord> {
    var url := Get(m.fields, "URL");
    var verb := Get(m.fields, "Verb");
    if m.provider == WininetProvider && m.task == UsageLogRequest && Truthy(url) && Truthy(verb) then
      [RequestRecord(url, verb, Get(m.fields, "RequestHeaders"), m.threadId, m.processName)]
    else []
  }

  /** The request/response half of one step; a payload that does not decode aborts the processing. */
  function RecordStep(st: WininetState, m: Match, decode: PayloadDecoder): Result<WininetState> {
    var f := m.fields;
    if m.provider == WininetProvider && m.task == UsageLogRequest then
      Success(st.(requests := st.requests + RequestOf(m)))
    else if m.provider == CaptureProvider && m.task == CaptureResponse && Truthy(Get(f, "Payload")) then
      match decode(Get(f, "Payload"))
      case None => Failure("payload is not base64-encoded UTF-8")
      case Some(body) =>
        Success(st.(responses := st.responses + [ResponseRecord(Get(f, "Flags"), m.threadId, m.processName, body)]))
    else Success(st)
  }

  /** `current` replaced by `v` unless `v` is None. */
  function Overwrite(current: Option<PyValue>, v: PyValue): Option<PyValue> {
    if v != PyNone then Some(v) else current
  }

  /** A request-handle event: the entry is created on first sighting, then its optional keys overwritten by the non-None values. */
  function UpdateRequest(handles: OrderedMap<PyValue, RequestInfo>, handle: PyValue, m: Match): OrderedMap<PyValue, RequestInfo> {
    var f := m.fields;
    var info := if handle in handles.values then handles.values[handle]
                else RequestInfo(Get(f, "ParentHandle"), m.threadId, m.processName, None, None, None, None);
    var info' := info.(verb := Overwrite(info.verb, Get(f, "Verb")),
                       objectName := Overwrite(info.objectName, Get(f, "ObjectName")),
                       httpVersion := Overwrite(info.httpVersion, Get(f, "Version")),
                       referrer := Overwrite(info.referrer, Get(f, "Referrer")));
    handles.Put(handle, info')
  }

  /** The handle-table half of one step. */
  function HandleStep(st: WininetState, m: Match): WininetState {
    var f := m.fields;
    if m.task == RootHandleCreated then
      var handle := Get(f, "HINTERNET");
      if Truthy(handle) then
        st.(rootHandles := st.rootHandles[handle := RootInfo(Get(f, "UserAgent"), Get(f, "AccessType"),
                                                             Get(f, "ProxyBypassList"), m.threadId, m.processName)])
      else st
    else if m.task == ConnectHandleCreated then
      var handle := Get(f, "ConnectionHandle");
      var parentHandle := Get(f, "ParentHandle");
      if Truthy(handle) && Truthy(parentHandle) then
        st.(connectionHandles := st.connectionHandles.Put(handle, ConnectionInfo(parentHandle, Get(f, "ServerName"),
                                                          Get(f, "ServerPort"), Get(f, "Service"), m.threadId, m.processName)))
      else st
    else if m.task == RequestHandleCreated then
      var handle := Get(f, "ConnectionHandle");
      if Truthy(handle) then st.(requestHandles := UpdateRequest(st.requestHandles, handle, m)) else st
    else st
  }

  function Step(st: WininetState, m: Match, decode: PayloadDecoder): Result<WininetState> {
    if !IsWininet(m) then Success(st)
    else
      match RecordStep(st, m, decode)
      case Failure(e) => Failure(e)
      case Success(st') => Success(HandleStep(st', m))
  }

  /** The state after walking `ms` from `st`. */
  function Walk(st: WininetState, ms: seq<Match>, decode: PayloadDecoder): Result<WininetState>
    decreases |ms|
  {
    if ms == [] then Success(st)
    else
      match Step(st, ms[0], decode)
      case Failure(e) => Failure(e)
      case Success(st') => Walk(st', ms[1..], decode)
  }

  /** The URL of a request: the connection's service in lower case ("http" without a connection), server name and port, and object name. */
  function RequestUrl(conn: Option<ConnectionInfo>, objectName: PyValue): Result<string> {
    var service := if conn.Some? then conn.value.service else PyStr(DefaultScheme);
    if !service.PyStr? then Failure("service has no lower()")
    else
      var serverName := if conn.Some? then conn.value.serverName else PyNone;
      var serverPort := if conn.Some? then conn.value.serverPort else PyNone;
      Success(Lower(service.s) + "://" + Format(serverName) + ":" + Format(serverPort) + Format(objectName))
  }

  function OrNone(v: Option<PyValue>): PyValue {
    if v.Some? then v.value else PyNone
  }

  predicate Complete(info: RequestInfo) {
    info.verb.Some? && info.objectName.Some?
  }

  /** The enriched record of one request handle, or nothing when it lacks a verb or an object name. */
  function Enrich(st: WininetState, reqHandle: PyValue, info: RequestInfo): Result<seq<EnrichedRecord>> {
    if !Complete(info) then Success([])
    else
      var connHandle := info.parentHandle;
      var conn := if connHandle in st.connectionHandles.values then Some(st.connectionHandles.values[connHandle]) else None;
      var rootHandle := if conn.Some? then conn.value.parentHandle else PyNone;
      var userAgent := if rootHandle in st.rootHandles then st.rootHandles[rootHandle].userAgent else PyNone;
      match RequestUrl(conn, info.objectName.value)
      case Failure(e) => Failure(e)
      case Success(url) =>
        Success([EnrichedRecord(info.verb.value, url, userAgent, OrNone(info.httpVersion), OrNone(info.referrer),
                                info.threadId, info.processName, Handles(rootHandle, connHandle, reqHandle))])
  }

  /** The enriched records of the request handles `keys`, in order. */
  function EnrichAll(st: WininetState, keys: seq<PyValue>): Result<seq<EnrichedRecord>>
    requires forall k | k in keys :: k in st.requestHandles.values
    decreases |keys|
  {
    if keys == [] then Success([])
    else
      match Enrich(st, keys[0], st.requestHandles.values[keys[0]])
      case Failure(e) => Failure(e)
      case Success(recs) =>
        match EnrichAll(st, keys[1..])
        case Failure(e) => Failure(e)
        case Success(rest) => Success(recs + rest)
  }

  /** The "name:port" of a connection whose service is HTTP. */
  function ServerOf(info: ConnectionInfo): seq<string> {
    if info.service != HttpService then [] else [Format(info.serverName) + ":" + Format(info.serverPort)]
  }

  /** The servers of the connections `keys`, appended to `acc` unless already listed. */
  function ServersFrom(conns: map<PyValue, ConnectionInfo>, keys: seq<PyValue>, acc: seq<string>): seq<string>
    requires forall k | k in keys :: k in conns
    decreases |keys|
  {
    if keys == [] then acc
    else
      var s := ServerOf(conns[keys[0]]);
      ServersFrom(conns, keys[1..], if s == [] then acc else AppendNew(acc, s[0]))
  }

  /** `process_wininet_data`. */
  function WininetOf(matches: seq<Match>, decode: PayloadDecoder): Result<WininetReport> {
    match Walk(InitialState, matches, decode)
    case Failure(e) => Failure(e)
    case Success(st) =>
      WalkInv(InitialState, matches, decode);
      match EnrichAll(st, st.requestHandles.keys)
      case Failure(e) => Failure(e)
      case Success(enriched) =>
        Success(WininetReport(st.requests, st.responses,
                              ServersFrom(st.connectionHandles.values, st.connectionHandles.keys, []), enriched))
  }

  // ---------------------------------------------------------------------------
  // What the walk keeps

  /** The tables keep their insertion order, and only truthy handles (with a truthy parent, for connections) are stored. */
  ghost predicate Inv(st: WininetState) {
    && st.requestHandles.Valid()
    && st.connectionHandles.Valid()
    && (forall h | h in st.rootHandles :: Truthy(h))
    && (forall h | h in st.connectionHandles.values :: Truthy(h) && Truthy(st.connectionHandles.values[h].parentHandle))
    && (forall h | h in st.requestHandles.values :: Truthy(h))
  }

  /** The request records of a sequence of matches, in order. */
  function RequestsOf(ms: seq<Match>): seq<RequestRecord> {
    if ms == [] then [] else RequestOf(ms[0]) + RequestsOf(ms[1..])
  }

  /**
   * The response a captured-response match adds: one with its flags, thread,
   * process and decoded body when it has a truthy payload that decodes.
   */
  function ResponseOf(m: Match, decode: PayloadDecoder): seq<ResponseRecord> {
    var payload := Get(m.fields, "Payload");
    if m.provider == CaptureProvider && m.task == CaptureResponse && Truthy(payload) && decode(payload).Some? then
      [ResponseRecord(Get(m.fields, "Flags"), m.threadId, m.processName, decode(payload).value)]
    else []
  }

  /** The response records of a sequence of matches, in order. */
  function ResponsesOf(ms: seq<Match>, decode: PayloadDecoder): seq<ResponseRecord> {
    if ms == [] then [] else ResponseOf(ms[0], decode) + ResponsesOf(ms[1..], decode)
  }

  /** A match whose payload the walk cannot decode. */
  predicate Undecodable(m: Match, decode: PayloadDecoder) {
    m.provider == CaptureProvider && m.task == CaptureResponse && Truthy(Get(m.fields, "Payload"))
    && decode(Get(m.fields, "Payload")).None?
  }

  lemma RecordStepInv(st: WininetState, m: Match, decode: PayloadDecoder)
    requires Inv(st)
    ensures RecordStep(st, m, decode).Success? ==> Inv(RecordStep(st, m, decode).value)
  {
  }

  lemma HandleStepInv(st: WininetState, m: Match)
    requires Inv(st)
    ensures Inv(HandleStep(st, m))
  {
    var f := m.fields;
    if m.task == RequestHandleCreated && Truthy(Get(f, "ConnectionHandle")) {
      UpdateRequestSpec(st.requestHandles, Get(f, "ConnectionHandle"), m);
    }
  }

  lemma StepInv(st: WininetState, m: Match, decode: PayloadDecoder)
    requires Inv(st)
    ensures Step(st, m, decode).Success? ==> Inv(Step(st, m, decode).value)
  {
    RecordStepInv(st, m, decode);
    if RecordStep(st, m, decode).Success? {
      HandleStepInv(RecordStep(st, m, decode).value, m);
    }
  }

  /**
   * Walking the matches keeps the invariant.
   */
  lemma {:induction false} WalkInv(st: WininetState, ms: seq<Match>, decode: PayloadDecoder)
    requires Inv(st)
    ensures Walk(st, ms, decode).Success? ==> Inv(Walk(st, ms, decode).value)
    decreases |ms|
  {
    if ms != [] {
      StepInv(st, ms[0], decode);
      if Step(st, ms[0], decode).Success? {
        var st' := Step(st, ms[0], decode).value;
        assert Walk(st, ms, decode) == Walk(st', ms[1..], decode);
        WalkInv(st', ms[1..], decode);
      }
    }
  }

  /** One match fails the walk exactly when it is a captured response whose payload does not decode. */
  lemma StepFails(st: WininetState, m: Match, decode: PayloadDecoder)
    ensures Step(st, m, decode).Failure? <==> Undecodable(m, decode)
  {
  }

  /** The walk fails exactly when some captured response has a payload that does not decode. */
  lemma {:induction false} WalkFails(st: WininetState, ms: seq<Match>, decode: PayloadDecoder)
    ensures Walk(st, ms, decode).Failure? <==> exists i | 0 <= i < |ms| :: Undecodable(ms[i], decode)
    decreases |ms|
  {
    if ms != [] {
      StepFails(st, ms[0], decode);
      if Step(st, ms[0], decode).Success? {
        var st' := Step(st, ms[0], decode).value;
        assert Walk(st, ms, decode) == Walk(st', ms[1..], decode);
        WalkFails(st', ms[1..], decode);
        ShiftUndecodable(ms, decode);
      } else {
        assert Walk(st, ms, decode).Failure?;
        assert Undecodable(ms[0], decode);
      }
    }
  }

  /** One match adds its request and its captured response, if any, and leaves the earlier records alone. */
  lemma StepRecords(st: WininetState, m: Match, decode: PayloadDecoder)
    ensures Step(st, m, decode).Success? ==> Step(st, m, decode).value.requests == st.requests + RequestOf(m)
    ensures Step(st, m, decode).Success? ==> Step(st, m, decode).value.responses == st.responses + ResponseOf(m, decode)
  {
  }

  /**
   * A completed walk lists exactly the usage-log requests with a URL and a
   * verb and exactly the decoded captured responses, each in log order.
   */
  lemma {:induction false} WalkRecords(st: WininetState, ms: seq<Match>, decode: PayloadDecoder)
    ensures Walk(st, ms, decode).Success? ==> Walk(st, ms, decode).value.requests == st.requests + RequestsOf(ms)
    ensures Walk(st, ms, decode).Success? ==> Walk(st, ms, decode).value.responses == st.responses + ResponsesOf(ms, decode)
    decreases |ms|
  {
    if ms != [] {
      StepRecords(st, ms[0], decode);
      if Step(st, ms[0], decode).Success? {
        var st' := Step(st, ms[0], decode).value;
        assert Walk(st, ms, decode) == Walk(st', ms[1..], decode);
        WalkRecords(st', ms[1..], decode);
        assert st.requests + (RequestOf(ms[0]) + RequestsOf(ms[1..])) == (st.requests + RequestOf(ms[0])) + RequestsOf(ms[1..]);
        assert st.responses + (ResponseOf(ms[0], decode) + ResponsesOf(ms[1..], decode))
            == (st.responses + ResponseOf(ms[0], decode)) + ResponsesOf(ms[1..], decode);
      }
    }
  }

  lemma ShiftUndecodable(ms: seq<Match>, decode: PayloadDecoder)
    requires ms != [] && !Undecodable(ms[0], decode)
    ensures (exists i | 0 <= i < |ms| :: Undecodable(ms[i], decode)) <==>
            (exists i | 0 <= i < |ms[1..]| :: Undecodable(ms[1..][i], decode))
  {
    forall i | 0 < i < |ms| ensures ms[i] == ms[1..][i - 1] { }
  }

  /**
   * Every response record comes from a capture match of the WinINet provider
   * whose payload is truthy and decodes to the record's body.
   */
  lemma {:induction false} ResponsesOfSpec(ms: seq<Match>, decode: PayloadDecoder)
    ensures forall r | r in ResponsesOf(ms, decode) ::
      exists m | m in ms :: m.provider == CaptureProvider && m.task == CaptureResponse && Truthy(Get(m.fields, "Payload"))
                            && decode(Get(m.fields, "Payload")) == Some(r.body) && r.threadId == m.threadId
  {
    if ms != [] {
      ResponsesOfSpec(ms[1..], decode);
      assert forall m | m in ms[1..] :: m in ms;
      assert ms[0] in ms;
    }
  }

  /**
   * Every request record has a truthy URL and verb and comes from a
   * usage-log match of the WinINet provider.
   */
  lemma {:induction false} RequestsOfSpec(ms: seq<Match>)
    ensures forall r | r in RequestsOf(ms) :: Truthy(r.url) && Truthy(r.verb)
    ensures forall r | r in RequestsOf(ms) ::
      exists m | m in ms :: m.provider == WininetProvider && m.task == UsageLogRequest && r.url == Get(m.fields, "URL") && r.verb == Get(m.fields, "Verb")
  {
    if ms != [] {
      RequestsOfSpec(ms[1..]);
      assert forall m | m in ms[1..] :: m in ms;
    }
  }

  /**
   * A request handle is created on its first sighting with that event's
   * parent handle, thread and process, and those stay; an optional key
   * changes only to a non-None value of the event, and does whenever the
   * event has one. The key keeps its place; no other entry changes.
   */
  lemma UpdateRequestSpec(handles: OrderedMap<PyValue, RequestInfo>, handle: PyValue, m: Match)
    requires handles.Valid()
    ensures var r := UpdateRequest(handles, handle, m);
      var f := m.fields;
      var info := r.values[handle];
      && r.Valid()
      && handle in r.values
      && (handle in handles.values ==> r.keys == handles.keys)
      && (handle !in handles.values ==> r.keys == handles.keys + [handle])
      && (forall h | h in handles.values && h != handle :: h in r.values && r.values[h] == handles.values[h])
      && (handle in handles.values ==>
            var before := handles.values[handle];
            && info.parentHandle == before.parentHandle && info.threadId == before.threadId && info.processName == before.processName
            && (info.verb != before.verb ==> info.verb == Some(Get(f, "Verb")))
            && (info.objectName != before.objectName ==> info.objectName == Some(Get(f, "ObjectName"))))
      && (handle !in handles.values ==>
            info.parentHandle == Get(f, "ParentHandle") && info.threadId == m.threadId && info.processName == m.processName
            && (info.verb.Some? <==> Get(f, "Verb") != PyNone)
            && (info.objectName.Some? <==> Get(f, "ObjectName") != PyNone))
      && (Get(f, "Verb") != PyNone ==> info.verb == Some(Get(f, "Verb")))
      && (Get(f, "ObjectName") != PyNone ==> info.objectName == Some(Get(f, "ObjectName")))
      && (Get(f, "Version") != PyNone ==> info.httpVersion == Some(Get(f, "Version")))
      && (Get(f, "Referrer") != PyNone ==> info.referrer == Some(Get(f, "Referrer")))
  {
  }

  // ---------------------------------------------------------------------------
  // Enriched records and servers

  /** The request handles among `keys` that have a verb and an object name. */
  function CompleteKeys(st: WininetState, keys: seq<PyValue>): (r: seq<PyValue>)
    requires forall k | k in keys :: k in st.requestHandles.values
    ensures forall k | k in r :: k in keys && Complete(st.requestHandles.values[k])
  {
    if keys == [] then []
    else (if Complete(st.requestHandles.values[keys[0]]) then [keys[0]] else []) + CompleteKeys(st, keys[1..])
  }

  /** A request handle whose URL cannot be built: its connection's service is not a string. */
  predicate BadService(st: WininetState, k: PyValue)
    requires k in st.requestHandles.values
  {
    var info := st.requestHandles.values[k];
    Complete(info) && info.parentHandle in st.connectionHandles.values
    && !st.connectionHandles.values[info.parentHandle].service.PyStr?
  }

  /**
   * An enriched record for request handle `k`: that handle's verb, version,
   * referrer, thread and process; its connection (the handle's parent) and
   * that connection's root with the root's user agent; and the URL built from
   * the connection's service, server and port and the handle's object name,
   * or "http://None:None" and the object name when the connection is unknown.
   */
  ghost predicate Describes(st: WininetState, k: PyValue, e: EnrichedRecord)
    requires k in st.requestHandles.values
  {
    var info := st.requestHandles.values[k];
    var conns := st.connectionHandles.values;
    var c := info.parentHandle;
    && Complete(info)
    && e.handles.request == k
    && e.handles.connection == c
    && e.verb == info.verb.value
    && e.httpVersion == OrNone(info.httpVersion) && e.referrer == OrNone(info.referrer)
    && e.threadId == info.threadId && e.processName == info.processName
    && (c in conns ==>
          && conns[c].service.PyStr?
          && e.handles.root == conns[c].parentHandle
          && e.url == Lower(conns[c].service.s) + "://" + Format(conns[c].serverName) + ":" + Format(conns[c].serverPort)
                      + Format(info.objectName.value))
    && (c !in conns ==> e.handles.root == PyNone && e.url == "http://None:None" + Format(info.objectName.value))
    && (e.handles.root in st.rootHandles ==> e.userAgent == st.rootHandles[e.handles.root].userAgent)
    && (e.handles.root !in st.rootHandles ==> e.userAgent == PyNone)
  }

  lemma EnrichOne(st: WininetState, k: PyValue)
    requires k in st.requestHandles.values
    ensures var r := Enrich(st, k, st.requestHandles.values[k]);
      && (r.Failure? <==> BadService(st, k))
      && (r.Success? && !Complete(st.requestHandles.values[k]) ==> r.value == [])
      && (r.Success? && Complete(st.requestHandles.values[k]) ==> |r.value| == 1 && Describes(st, k, r.value[0]))
  {
    var info := st.requestHandles.values[k];
    if Complete(info) {
      UrlWithoutConnection(info.objectName.value);
    }
  }

  /** The enrichment fails exactly when a handle with a verb and an object name has a connection whose service is not a string. */
  lemma {:induction false} EnrichAllFails(st: WininetState, keys: seq<PyValue>)
    requires forall k | k in keys :: k in st.requestHandles.values
    ensures EnrichAll(st, keys).Failure? <==> exists k | k in keys :: BadService(st, k)
    decreases |keys|
  {
    if keys != [] {
      var k := keys[0];
      assert forall x | x in keys[1..] :: x in keys;
      assert forall x | x in keys :: x == k || x in keys[1..];
      EnrichOne(st, k);
      EnrichAllFails(st, keys[1..]);
    }
  }

  lemma DescribesCons(st: WininetState, k: PyValue, ks: seq<PyValue>, head: seq<EnrichedRecord>, rest: seq<EnrichedRecord>)
    requires k in st.requestHandles.values && forall x | x in ks :: x in st.requestHandles.values
    requires |head| == 1 && Describes(st, k, head[0])
    requires |rest| == |ks| && forall i | 0 <= i < |ks| :: Describes(st, ks[i], rest[i])
    ensures forall i | 0 <= i < |ks| + 1 :: Describes(st, ([k] + ks)[i], (head + rest)[i])
  {
    forall i | 1 <= i < |ks| + 1
      ensures Describes(st, ([k] + ks)[i], (head + rest)[i])
    {
      assert ([k] + ks)[i] == ks[i - 1];
      assert (head + rest)[i] == rest[i - 1];
    }
  }

  /** The enriched records follow the request handles that have a verb and an object name, one each and in table order. */
  lemma {:induction false} EnrichAllRecords(st: WininetState, keys: seq<PyValue>)
    requires forall k | k in keys :: k in st.requestHandles.values
    requires EnrichAll(st, keys).Success?
    ensures var recs := EnrichAll(st, keys).value;
      var ks := CompleteKeys(st, keys);
      |recs| == |ks| && forall i | 0 <= i < |ks| :: Describes(st, ks[i], recs[i])
    decreases |keys|
  {
    if keys != [] {
      var k := keys[0];
      assert forall x | x in keys[1..] :: x in keys;
      EnrichOne(st, k);
      EnrichAllRecords(st, keys[1..]);
      var head := Enrich(st, k, st.requestHandles.values[k]).value;
      var rest := EnrichAll(st, keys[1..]).value;
      var ks' := CompleteKeys(st, keys[1..]);
      assert EnrichAll(st, keys).value == head + rest;
      if Complete(st.requestHandles.values[k]) {
        assert CompleteKeys(st, keys) == [k] + ks';
        DescribesCons(st, k, ks', head, rest);
      } else {
        assert CompleteKeys(st, keys) == ks';
        assert head + rest == rest;
      }
    }
  }

  /** Without a connection entry the URL is "http://None:None" followed by the object name. */
  lemma UrlWithoutConnection(objectName: PyValue)
    ensures RequestUrl(None, objectName) == Success("http://None:None" + Format(objectName))
  {
    assert forall i | 0 <= i < |DefaultScheme| :: LowerChar(DefaultScheme[i]) == DefaultScheme[i];
    assert Lower(DefaultScheme) == DefaultScheme;
    assert Format(PyNone) == "None";
    assert DefaultScheme + "://" + "None" + ":" + "None" == "http://None:None";
  }

  /** The server strings of the HTTP connections among `keys`, duplicates included. */
  function ServerStrings(conns: map<PyValue, ConnectionInfo>, keys: seq<PyValue>): seq<string>
    requires forall k | k in keys :: k in conns
  {
    if keys == [] then [] else ServerOf(conns[keys[0]]) + ServerStrings(conns, keys[1..])
  }

  /** Collecting the servers appends each HTTP connection's server string unless already listed. */
  lemma {:induction false} ServersFromAppend(conns: map<PyValue, ConnectionInfo>, keys: seq<PyValue>, acc: seq<string>)
    requires forall k | k in keys :: k in conns
    ensures ServersFrom(conns, keys, acc) == AppendAllNew(acc, ServerStrings(conns, keys))
    decreases |keys|
  {
    if keys != [] {
      var s := ServerOf(conns[keys[0]]);
      assert forall x | x in keys[1..] :: x in keys;
      var acc' := if s == [] then acc else AppendNew(acc, s[0]);
      assert ServersFrom(conns, keys, acc) == ServersFrom(conns, keys[1..], acc');
      ServersFromAppend(conns, keys[1..], acc');
      var rest := ServerStrings(conns, keys[1..]);
      assert ServerStrings(conns, keys) == s + rest;
      if s == [] {
        assert s + rest == rest;
      } else {
        assert s == [s[0]];
        var all := [s[0]] + rest;
        assert all[0] == s[0] && all[1..] == rest;
        assert AppendAllNew(acc, all) == AppendAllNew(AppendNew(acc, s[0]), rest);
      }
    }
  }

  /** The servers are exactly the distinct "name:port" strings of the HTTP connections, none twice. */
  lemma ServersSpec(conns: map<PyValue, ConnectionInfo>, keys: seq<PyValue>)
    requires forall k | k in keys :: k in conns
    ensures ServersFrom(conns, keys, []) == Distinct(ServerStrings(conns, keys))
    ensures NoDuplicates(ServersFrom(conns, keys, []))
    ensures forall s :: s in ServersFrom(conns, keys, []) <==> s in ServerStrings(conns, keys)
  {
    ServersFromAppend(conns, keys, []);
    AppendAllNewDistinct([], ServerStrings(conns, keys));
    assert [] + ServerStrings(conns, keys) == ServerStrings(conns, keys);
    DistinctMembers(ServerStrings(conns, keys));
  }

  /**
   * The report of the WinINet pass: the requests are the usage-log requests
   * with a URL and a verb, in order; the servers are the distinct
   * "name:port" strings of the HTTP connections; the enriched records follow
   * the request handles that saw a verb and an object name. The pass fails
   * exactly when a captured payload does not decode or a complete request's
   * connection has a service that is not a string.
   */
  lemma WininetSpec(matches: seq<Match>, decode: PayloadDecoder)
    ensures Walk(InitialState, matches, decode).Failure? ==> WininetOf(matches, decode).Failure?
    ensures Walk(InitialState, matches, decode).Failure? <==> exists i | 0 <= i < |matches| :: Undecodable(matches[i], decode)
    ensures Walk(InitialState, matches, decode).Success? ==>
      var st := Walk(InitialState, matches, decode).value;
      && Inv(st)
      && (WininetOf(matches, decode).Failure? <==> exists k | k in st.requestHandles.keys :: BadService(st, k))
      && (WininetOf(matches, decode).Success? ==>
            var rep := WininetOf(matches, decode).value;
            var ks := CompleteKeys(st, st.requestHandles.keys);
            && rep.requests == RequestsOf(matches)
            && rep.responses == ResponsesOf(matches, decode)
            && rep.servers == Distinct(ServerStrings(st.connectionHandles.values, st.connectionHandles.keys))
            && NoDuplicates(rep.servers)
            && |rep.enrichedRecords| == |ks|
            && (forall i | 0 <= i < |ks| :: Describes(st, ks[i], rep.enrichedRecords[i])))
  {
    WalkInv(InitialState, matches, decode);
    WalkFails(InitialState, matches, decode);
    WalkRecords(InitialState, matches, decode);
    if Walk(InitialState, matches, decode).Success? {
      var st := Walk(InitialState, matches, decode).value;
      EnrichAllFails(st, st.requestHandles.keys);
      ServersSpec(st.connectionHandles.values, st.connectionHandles.keys);
      if EnrichAll(st, st.requestHandles.keys).Success? {
        EnrichAllRecords(st, st.requestHandles.keys);
      }
    }
  }

  // ---------------------------------------------------------------------------
  // The processing loop

  /** The request-handle update of one event, key by key. */
  method RecordRequestHandle(requestHandles: OrderedMap<PyValue, RequestInfo>, handle: PyValue, m: Match)
    returns (handles: OrderedMap<PyValue, RequestInfo>)
    ensures handles == UpdateRequest(requestHandles, handle, m)
  {
    var f := m.fields;
    handles := requestHandles;
    if handle !in handles.values {
      handles := handles.Put(handle, RequestInfo(Get(f, "ParentHandle"), m.threadId, m.processName, None, None, None, None));
    }
    var info := handles.values[handle];
    if Get(f, "Verb") != PyNone {
      info := info.(verb := Some(Get(f, "Verb")));
    }
    if Get(f, "ObjectName") != PyNone {
      info := info.(objectName := Some(Get(f, "ObjectName")));
    }
    if Get(f, "Version") != PyNone {
      info := info.(httpVersion := Some(Get(f, "Version")));
    }
    if Get(f, "Referrer") != PyNone {
      info := info.(referrer := Some(Get(f, "Referrer")));
    }
    handles := handles.Put(handle, info);
  }

  /** The request/response half of one match. */
  method RecordMatch(st: WininetState, m: Match, decode: PayloadDecoder) returns (r: Result<WininetState>)
    ensures r == RecordStep(st, m, decode)
  {
    var requests, responses := st.requests, st.responses;
    var f := m.fields;
    if m.provider == WininetProvider && m.task == UsageLogRequest {
      var url := Get(f, "URL");
      var verb := Get(f, "Verb");
      if Truthy(url) && Truthy(verb) {
        requests := requests + [RequestRecord(url, verb, Get(f, "RequestHeaders"), m.threadId, m.processName)];
      }
    } else if m.provider == CaptureProvider && m.task == CaptureResponse {
      var payload := Get(f, "Payload");
      if Truthy(payload) {
        var body := decode(payload);
        if body.None? {
          return Failure("payload is not base64-encoded UTF-8");
        }
        responses := responses + [ResponseRecord(Get(f, "Flags"), m.threadId, m.processName, body.value)];
      }
    }
    assert st.requests + [] == st.requests;
    r := Success(st.(requests := requests, responses := responses));
  }

  /** The handle-table half of one match. */
  method TrackHandles(st: WininetState, m: Match) returns (r: WininetState)
    ensures r == HandleStep(st, m)
  {
    var rootHandles, connectionHandles, requestHandles := st.rootHandles, st.connectionHandles, st.requestHandles;
    var f := m.fields;
    if m.task == RootHandleCreated {
      var handle := Get(f, "HINTERNET");
      if Truthy(handle) {
        rootHandles := rootHandles[handle := RootInfo(Get(f, "UserAgent"), Get(f, "AccessType"),
                                                      Get(f, "ProxyBypassList"), m.threadId, m.processName)];
      }
    } else if m.task == ConnectHandleCreated {
      var handle := Get(f, "ConnectionHandle");
      var parentHandle := Get(f, "ParentHandle");
      if Truthy(handle) && Truthy(parentHandle) {
        connectionHandles := connectionHandles.Put(handle, ConnectionInfo(parentHandle, Get(f, "ServerName"),
                                                   Get(f, "ServerPort"), Get(f, "Service"), m.threadId, m.processName));
      }
    } else if m.task == RequestHandleCreated {
      var handle := Get(f, "ConnectionHandle");
      if Truthy(handle) {
        requestHandles := RecordRequestHandle(requestHandles, handle, m);
      }
    }
    r := st.(rootHandles := rootHandles, connectionHandles := connectionHandles, requestHandles := requestHandles);
  }

  /** One match of the loop: the request/response lists, then the handle tables. */
  method ProcessMatch(st: WininetState, m: Match, decode: PayloadDecoder) returns (r: Result<WininetState>)
    ensures r == Step(st, m, decode)
  {
    if !IsWininet(m) {
      return Success(st);
    }
    var recorded := RecordMatch(st, m, decode);
    if recorded.Failure? {
      return Failure(recorded.error);
    }
    var tracked := TrackHandles(recorded.value, m);
    r := Success(tracked);
  }

  /** The walk over the matches. */
  method WalkMatches(matches: seq<Match>, decode: PayloadDecoder) returns (r: Result<WininetState>)
    ensures r == Walk(InitialState, matches, decode)
  {
    var st := InitialState;
    var i := 0;
    while i < |matches|
      invariant 0 <= i <= |matches|
      invariant Walk(InitialState, matches, decode) == Walk(st, matches[i..], decode)
    {
      var m := matches[i];
      assert matches[i..][1..] == matches[i + 1..];
      i := i + 1;
      var next := ProcessMatch(st, m, decode);
      if next.Failure? {
        return Failure(next.error);
      }
      st := next.value;
    }
    assert matches[i..] == [];
    r := Success(st);
  }

  lemma EnrichAllStep(st: WininetState, keys: seq<PyValue>, j: nat)
    requires forall k | k in keys :: k in st.requestHandles.values
    requires j < |keys|
    ensures forall k | k in keys[j + 1..] :: k in st.requestHandles.values
    ensures var e := Enrich(st, keys[j], st.requestHandles.values[keys[j]]);
      EnrichAll(st, keys[j..]) == if e.Failure? then Failure(e.error) else Prepend(e.value, EnrichAll(st, keys[j + 1..]))
  {
    assert keys[j..][1..] == keys[j + 1..];
    assert forall x | x in keys[j..] :: x in keys;
    assert forall x | x in keys[j + 1..] :: x in keys;
  }

  /** Enriches the request handles in table order. */
  method EnrichRequests(st: WininetState) returns (r: Result<seq<EnrichedRecord>>)
    requires st.requestHandles.Valid()
    ensures r == EnrichAll(st, st.requestHandles.keys)
  {
    var enriched: seq<EnrichedRecord> := [];
    var keys := st.requestHandles.keys;
    assert keys[0..] == keys;
    assert Prepend([], EnrichAll(st, keys)) == EnrichAll(st, keys) by {
      if EnrichAll(st, keys).Success? {
        assert [] + EnrichAll(st, keys).value == EnrichAll(st, keys).value;
      }
    }
    var j := 0;
    while j < |keys|
      invariant 0 <= j <= |keys|
      invariant EnrichAll(st, keys) == Prepend(enriched, EnrichAll(st, keys[j..]))
    {
      EnrichAllStep(st, keys, j);
      var e := Enrich(st, keys[j], st.requestHandles.values[keys[j]]);
      if e.Failure? {
        return Failure(e.error);
      }
      PrependTwice(enriched, e.value, EnrichAll(st, keys[j + 1..]));
      enriched := enriched + e.value;
      j := j + 1;
    }
    assert keys[j..] == [];
    assert enriched + [] == enriched;
    r := Success(enriched);
  }

  /** Lists the "name:port" of the HTTP connections, each once. */
  method CollectServers(connectionHandles: OrderedMap<PyValue, ConnectionInfo>) returns (servers: seq<string>)
    requires connectionHandles.Valid()
    ensures servers == ServersFrom(connectionHandles.values, connectionHandles.keys, [])
  {
    servers := [];
    var connKeys := connectionHandles.keys;
    var k := 0;
    while k < |connKeys|
      invariant 0 <= k <= |connKeys|
      invariant ServersFrom(connectionHandles.values, connKeys, []) == ServersFrom(connectionHandles.values, connKeys[k..], servers)
    {
      assert connKeys[k..][1..] == connKeys[k + 1..];
      var info := connectionHandles.values[connKeys[k]];
      k := k + 1;
      if info.service != HttpService {
        continue;
      }
      var server := Format(info.serverName) + ":" + Format(info.serverPort);
      if server !in servers {
        servers := servers + [server];
      }
    }
    assert connKeys[k..] == [];
  }

  method ProcessWininetData(matches: seq<Match>, decode: PayloadDecoder) returns (r: Result<WininetReport>)
    ensures r == WininetOf(matches, decode)
  {
    var walked := WalkMatches(matches, decode);
    if walked.Failure? {
      return Failure(walked.error);
    }
    var st := walked.value;
    WalkInv(InitialState, matches, decode);
    var enriched := EnrichRequests(st);
    if enriched.Failure? {
      return Failure(enriched.error);
    }
    var servers := CollectServers(st.connectionHandles);
    r := Success(WininetReport(st.requests, st.responses, servers, enriched.value));
  }
}
