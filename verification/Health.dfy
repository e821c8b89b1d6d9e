/** The health report: how the probe inside the container decides, how the report is printed,
    and how the host re-reads it without trusting it. */
module Health {
  import opened Outcome
  import opened Text
  import opened Json
  import opened Domain
  import opened Process

  /** A Python `int`, of which `bool` is a subclass. */
  datatype PyInt = Whole(n: int) | Truth(b: bool)
  {
    function Number(): int {
      match this
      case Whole(n) => n
      case Truth(b) => if b then 1 else 0
    }

    function ToJson(): Value {
      match this
      case Whole(n) => Int(n)
      case Truth(b) => Bool(b)
    }
  }

  datatype NodeHealth = NodeHealth(
    state: LifecycleState, chain: Option<Str>, version: Option<PyInt>,
    blocks: Option<int>, headers: Option<int>, details: Option<Str>)

  /** Equality of the dataclass: fields compare with Python's `==`, under which `True == 1`. */
  predicate SameHealth(a: NodeHealth, b: NodeHealth) {
    a.state == b.state && a.chain == b.chain && a.blocks == b.blocks && a.headers == b.headers &&
    a.details == b.details && a.version.Some? == b.version.Some? &&
    (a.version.Some? ==> a.version.value.Number() == b.version.value.Number())
  }

  /** What a HEALTHY report has to show. */
  predicate Contract(h: NodeHealth) {
    h.chain == Some(Str(EXPECTED_CHAIN)) && h.version.Some? && h.version.value.Number() == EXPECTED_VERSION
  }

  function Bare(state: LifecycleState, details: string): NodeHealth {
    NodeHealth(state, None, None, None, None, Some(Str(details)))
  }

  // ----- Printing -----

  function StateName(s: LifecycleState): string {
    match s
    case STOPPED => "stopped"
    case STARTING => "starting"
    case HEALTHY => "healthy"
    case UNHEALTHY => "unhealthy"
    case INCOMPATIBLE => "incompatible"
    case UNKNOWN => "unknown"
  }

  function StrOrNull(s: Option<Str>): Value { if s.Some? then Value.Text(s.value) else Null }

  function HealthDict(h: NodeHealth): map<Key, Value> {
    map[
      Key.state := FromText(StateName(h.state)),
      Key.chain := StrOrNull(h.chain),
      Key.version := if h.version.Some? then h.version.value.ToJson() else Null,
      Key.blocks := FromOptionalInt(h.blocks),
      Key.headers := FromOptionalInt(h.headers),
      Key.details := StrOrNull(h.details)]
  }

  /** The value is the payload of `status --json` for a node whose health is `h`. */
  predicate PrintsStatus(v: Value, nodeId: string, state: LifecycleState, h: NodeHealth) {
    v.Obj? && DistinctKeys(v.fields) && AsMap(v.fields).Keys == {Key.node_id, Key.state, Key.health} &&
    Get(v.fields, Key.node_id) == FromText(nodeId) && Get(v.fields, Key.state) == FromText(StateName(state)) &&
    Writes(Get(v.fields, Key.health), HealthDict(h))
  }

  // ----- The host's reading: _parse_delegated_health -----

  /** `NodeLifecycleState(word)`, with UNKNOWN where that raises. */
  function StateFromWord(word: string): LifecycleState {
    if word == "stopped" then STOPPED
    else if word == "starting" then STARTING
    else if word == "healthy" then HEALTHY
    else if word == "unhealthy" then UNHEALTHY
    else if word == "incompatible" then INCOMPATIBLE
    else UNKNOWN
  }

  /** The state member after `str(...).lower()`: only a string can spell a state. */
  function ReportedState(v: Value): LifecycleState {
    if v.Text? && v.t.Str? then StateFromWord(Lower(v.t.s)) else UNKNOWN
  }

  function IntOrNone(v: Value): Option<int> {
    match v
    case Int(i) => Some(i)
    case Bool(b) => Some(if b then 1 else 0)
    case _ => None
  }

  function ShownDetails(show: Value -> Str, v: Value): Option<Str> {
    if v.Null? then None else if v.Text? then Some(v.t) else Some(show(v))
  }

  function ReadHealth(show: Value -> Str, f: Fields): NodeHealth {
    var (chain, version, details) := (Get(f, Key.chain), Get(f, Key.version), Get(f, Key.details));
    var claimed := ReportedState(Get(f, Key.state));
    var mismatch := claimed.HEALTHY? && !(IsText(chain, EXPECTED_CHAIN) && PyEqInt(version, EXPECTED_VERSION));
    var number := IntOrNone(version);
    NodeHealth(
      if mismatch then INCOMPATIBLE else claimed,
      if chain.Text? then Some(chain.t) else None,
      if number.Some? then Some(Whole(number.value)) else None,
      IntOrNone(Get(f, Key.blocks)),
      IntOrNone(Get(f, Key.headers)),
      if mismatch && (details.Null? || IsText(details, "ready")) then Some(Str("delegated_contract_mismatch"))
      else ShownDetails(show, details))
  }

  /** The members of the report's health object; `None` for anything malformed. */
  function HealthMembers(v: Option<Value>): Option<Fields> {
    if v.None? || !v.value.Obj? then None
    else if Key.health !in AsMap(v.value.fields) then Some([])
    else if Get(v.value.fields, Key.health).Obj? then Some(Get(v.value.fields, Key.health).fields)
    else None
  }

  function HostHealth(lib: Library, stdout: string): NodeHealth {
    var raw := Strip(stdout);
    if raw == "" then Bare(UNKNOWN, "empty_probe_response") else
      var f := HealthMembers(lib.loads(raw));
      if f.None? then Bare(UNKNOWN, "malformed_probe_response") else ReadHealth(lib.show, f.value)
  }

  // ----- The reading, in words -----

  /** The value is the number 310100, however it is written. */
  predicate Is310100(v: Value) {
    v == Int(310100) || v == Flt(Finite(310100.0)) || v == Num(Dec(false, 310100, 0))
  }

  /** The report's members show the expected chain and version. */
  predicate ShowsExpected(f: Fields) {
    Get(f, Key.chain) == Value.Text(Str("regtest")) && Is310100(Get(f, Key.version))
  }

  /** The members of the object under "health" in the JSON object that the output is. */
  function Reported(lib: Library, stdout: string): Option<Fields> {
    var v := lib.loads(Strip(stdout));
    if Strip(stdout) != "" && v.Some? && v.value.Obj? && Get(v.value.fields, Key.health).Obj?
    then Some(Get(v.value.fields, Key.health).fields) else None
  }

  /** The report proves health: its state word is "healthy", and chain and version are the expected ones. */
  predicate ShowsHealthy(lib: Library, stdout: string) {
    var f := Reported(lib, stdout);
    f.Some? && Spells(Get(f.value, Key.state), "healthy") && ShowsExpected(f.value)
  }

  /** The report shows another network or version: it says so, or claims health against its own members. */
  predicate ShowsIncompatible(lib: Library, stdout: string) {
    var f := Reported(lib, stdout);
    f.Some? &&
    var word := Get(f.value, Key.state);
    Spells(word, "incompatible") || (Spells(word, "healthy") && !ShowsExpected(f.value))
  }

  /** The state that belongs to the members: that of the state word, but for a claim of health that the other
      members do not bear out. */
  predicate StateReads(f: Fields, state: LifecycleState) {
    var word := Get(f, Key.state);
    (state == HEALTHY <==> Spells(word, "healthy") && ShowsExpected(f)) &&
    (state == INCOMPATIBLE <==> Spells(word, "incompatible") || (Spells(word, "healthy") && !ShowsExpected(f))) &&
    (state == STOPPED <==> Spells(word, "stopped")) && (state == STARTING <==> Spells(word, "starting")) &&
    (state == UNHEALTHY <==> Spells(word, "unhealthy"))
  }

  function IntRead(v: Value): Option<int> {
    if v.Int? then Some(v.i) else if v == Bool(true) then Some(1) else if v == Bool(false) then Some(0) else None
  }

  lemma StateWordsDiffer()
    ensures "healthy" != "incompatible" && "healthy" != "stopped" && "healthy" != "starting" && "healthy" != "unhealthy"
    ensures "incompatible" != "stopped" && "incompatible" != "starting" && "incompatible" != "unhealthy"
    ensures "stopped" != "starting" && "stopped" != "unhealthy" && "starting" != "unhealthy"
  {
    assert |"healthy"| == 7 && |"incompatible"| == 12 && |"stopped"| == 7 && |"starting"| == 8 && |"unhealthy"| == 9;
    assert "healthy"[0] != "stopped"[0];
  }

  lemma StateFromWordExact(v: Value)
    ensures ReportedState(v) == HEALTHY <==> Spells(v, "healthy")
    ensures ReportedState(v) == INCOMPATIBLE <==> Spells(v, "incompatible")
    ensures ReportedState(v) == STOPPED <==> Spells(v, "stopped")
    ensures ReportedState(v) == STARTING <==> Spells(v, "starting")
    ensures ReportedState(v) == UNHEALTHY <==> Spells(v, "unhealthy")
  {
    hide Lower;
    StateWordsDiffer();
  }

  /** What the host makes of the members, for all members. */
  lemma ReadHealthExact(show: Value -> Str, f: Fields)
    ensures var h := ReadHealth(show, f);
      StateReads(f, h.state) &&
      h.chain == (if Get(f, Key.chain).Text? then Some(Get(f, Key.chain).t) else None) &&
      h.blocks == IntRead(Get(f, Key.blocks)) && h.headers == IntRead(Get(f, Key.headers)) &&
      var number := IntRead(Get(f, Key.version));
      h.version == if number.Some? then Some(Whole(number.value)) else None
    ensures var (h, details) := (ReadHealth(show, f), Get(f, Key.details));
      var broken := Spells(Get(f, Key.state), "healthy") && !ShowsExpected(f);
      h.details == if broken && (details == Null || details == Value.Text(Str("ready")))
                   then Some(Str("delegated_contract_mismatch"))
                   else if details == Null then None
                   else if details.Text? then Some(details.t)
                   else Some(show(details))
  {
    hide AsMap, Lower, StateFromWord, ReportedState;
    StateFromWordExact(Get(f, Key.state));
  }

  /** What the host makes of the whole output, for all output. */
  lemma HostHealthExact(lib: Library, stdout: string)
    ensures Strip(stdout) == "" ==> HostHealth(lib, stdout) == Bare(UNKNOWN, "empty_probe_response")
    ensures Reported(lib, stdout).Some? ==> HostHealth(lib, stdout) == ReadHealth(lib.show, Reported(lib, stdout).value)
    ensures Strip(stdout) != "" ==>
      var v := lib.loads(Strip(stdout));
      (v.None? || !v.value.Obj? || (Key.health in AsMap(v.value.fields) && !Get(v.value.fields, Key.health).Obj?) ==>
        HostHealth(lib, stdout) == Bare(UNKNOWN, "malformed_probe_response")) &&
      (v.Some? && v.value.Obj? && Key.health !in AsMap(v.value.fields) ==>
        HostHealth(lib, stdout) == NodeHealth(UNKNOWN, None, None, None, None, None))
  {
    hide Strip, Lower;
    hide StateFromWord;
  }

  /** The host calls a node HEALTHY exactly when the report shows it, and INCOMPATIBLE likewise. */
  lemma HealthySound(lib: Library, stdout: string)
    ensures HostHealth(lib, stdout).state == HEALTHY <==> ShowsHealthy(lib, stdout)
    ensures HostHealth(lib, stdout).state == INCOMPATIBLE <==> ShowsIncompatible(lib, stdout)
  {
    hide Strip, ReadHealth, StateReads, ShowsExpected, Spells, HostHealth, AsMap;
    HostHealthExact(lib, stdout);
    var f := Reported(lib, stdout);
    if f.Some? {
      ReadHealthExact(lib.show, f.value);
      StateOfReport(f.value, ReadHealth(lib.show, f.value).state);
    }
  }

  lemma StateOfReport(f: Fields, state: LifecycleState)
    requires StateReads(f, state)
    ensures state == HEALTHY <==> Spells(Get(f, Key.state), "healthy") && ShowsExpected(f)
    ensures state == INCOMPATIBLE <==>
      Spells(Get(f, Key.state), "incompatible") || (Spells(Get(f, Key.state), "healthy") && !ShowsExpected(f))
  {
  }

  /** A health read as HEALTHY shows the expected chain and version itself exactly when the report
      gives the version as an integer. */
  lemma HealthyShowsVersionIff(lib: Library, stdout: string)
    requires HostHealth(lib, stdout).state == HEALTHY
    ensures HealthMembers(lib.loads(Strip(stdout))).Some?
    ensures Contract(HostHealth(lib, stdout)) <==>
            Get(HealthMembers(lib.loads(Strip(stdout))).value, Key.version).Int?
  {
    HealthySound(lib, stdout);
  }

  /** The version is compared by value, so a report that writes it as a float is believed,
      but the resulting health then carries no version. */
  lemma FloatVersionBelieved(show: Value -> Str, f: Fields)
    requires AsMap(f) == map[Key.state := FromText("healthy"), Key.chain := FromText(EXPECTED_CHAIN),
                             Key.version := Flt(Finite(310100.0))]
    ensures ReadHealth(show, f).state == HEALTHY && ReadHealth(show, f).version == None
  {
    StatesReadBack(HEALTHY);
  }

  lemma LowerFixed(s: string)
    requires forall i :: 0 <= i < |s| ==> 'a' <= s[i] <= 'z'
    ensures Lower(s) == s
  {
  }

  lemma StatesReadBack(s: LifecycleState)
    ensures ReportedState(FromText(StateName(s))) == s
  {
    LowerFixed(StateName(s));
    match s
    case STOPPED =>
    case STARTING =>
    case HEALTHY =>
    case UNHEALTHY =>
    case INCOMPATIBLE =>
    case UNKNOWN =>
  }

  lemma StatusRead(lib: Library, out: string, nodeId: string, h: NodeHealth, v: Value)
    requires lib.loads(Strip(out)) == Some(v) && Strip(out) != "" && PrintsStatus(v, nodeId, h.state, h)
    ensures HostHealth(lib, out) == ReadHealth(lib.show, Get(v.fields, Key.health).fields)
  {
    assert Key.health in AsMap(v.fields);
    assert HealthMembers(Some(v)) == Some(Get(v.fields, Key.health).fields);
  }

  /** Printed and re-read, a report is unchanged exactly when it does not claim HEALTHY
      against the contract. */
  lemma HealthRoundTrip(lib: Library, out: string, nodeId: string, h: NodeHealth, v: Value)
    requires lib.loads(Strip(out)) == Some(v) && Strip(out) != "" && PrintsStatus(v, nodeId, h.state, h)
    ensures SameHealth(HostHealth(lib, out), h) <==> (h.state == HEALTHY ==> Contract(h))
  {
    StatusRead(lib, out, nodeId, h, v);
    StatesReadBack(h.state);
    ReadBack(lib.show, h, Get(v.fields, Key.health).fields);
  }

  lemma ReadBack(show: Value -> Str, h: NodeHealth, f: Fields)
    requires AsMap(f) == HealthDict(h) && ReportedState(FromText(StateName(h.state))) == h.state
    ensures SameHealth(ReadHealth(show, f), h) <==> (h.state == HEALTHY ==> Contract(h))
  {
  }

  // ----- The probe inside the container: rpc_probe.py -----

  /** A response body: undecodable bytes, text that is not JSON, or a JSON value. */
  datatype Body = Undecodable | NotJson | Parsed(v: Value)

  /** What one HTTP exchange amounts to. */
  datatype Http = Answered(body: Body) | Refused(status: int, errorBody: Body) | Unreachable | Broken

  datatype Call =
    | Success(data: Value)
    | Malformed
    | RpcFault(code: Value)
    | Unauthorized
    | WarmingUp
    | HttpFault(status: int)
    | ConnectionFailed
    | Escaped  // an exception the call does not catch

  /** `_send_rpc_call` */
  function SendCall(http: Http): Call {
    match http
    case Answered(Parsed(Obj(f))) =>
      var err := Get(f, Key.error);
      if err.Null? then Success(Get(f, Key.result))
      else RpcFault(if err.Obj? then Get(err.fields, Key.code) else Null)
    case Answered(_) => Malformed
    case Refused(401, _) => Unauthorized
    case Refused(500, body) =>
      if body.Parsed? && body.v.Obj? && Get(body.v.fields, Key.error).Obj? &&
         PyEqInt(Get(Get(body.v.fields, Key.error).fields, Key.code), -28)
      then WarmingUp else HttpFault(500)
    case Refused(status, _) => HttpFault(status)
    case Unreachable => ConnectionFailed
    case Broken => Escaped
  }

  /** `_categorize_rpc_failure` */
  function Categorize(c: Call): NodeHealth {
    match c
    case WarmingUp => Bare(STARTING, "warming_up")
    case RpcFault(code) =>
      if PyEqInt(code, -28) then Bare(STARTING, "warming_up") else Bare(UNHEALTHY, "rpc_error")
    case Unauthorized => Bare(UNHEALTHY, "authentication_failed")
    case ConnectionFailed => Bare(STARTING, "rpc_unreachable")
    case Malformed => Bare(UNHEALTHY, "malformed_rpc_response")
    case _ => Bare(UNHEALTHY, "rpc_error")
  }

  function VersionOf(v: Value): Option<PyInt> {
    match v
    case Int(i) => Some(Whole(i))
    case Bool(b) => Some(Truth(b))
    case _ => None
  }

  /** `probe_rpc_http`, given whether a needed cookie could be read and what the two exchanges gave. */
  function Probe(show: Value -> Str, timeoutPositive: bool, cookieReadable: bool, first: Http, second: Http)
    : (r: Result<NodeHealth>)
    ensures r.Ok? && r.value.state == HEALTHY ==> Contract(r.value)
  {
    if !timeoutPositive then Ok(Bare(UNKNOWN, "timeout_expired"))
    else if !cookieReadable then Ok(Bare(STARTING, "cookie_file_unavailable"))
    else
      var call := SendCall(first);
      if call.Escaped? then Err(OtherException)
      else if !call.Success? then Ok(Categorize(call))
      else if !call.data.Obj? then Ok(Bare(UNHEALTHY, "malformed_blockchain_info"))
      else
        var f := call.data.fields;
        var (chain, blocks, headers) :=
          (Get(f, Key.chain), IntOrNone(Get(f, Key.blocks)), IntOrNone(Get(f, Key.headers)));
        if !IsText(chain, EXPECTED_CHAIN) then
          var shown := ShownDetails(show, chain);
          Ok(NodeHealth(INCOMPATIBLE, shown, None, blocks, headers, Some(Str("incompatible_chain"))))
        else
          var net := SendCall(second);
          if net.Escaped? then Err(OtherException)
          else if !net.Success? then Ok(Categorize(net))
          else if !net.data.Obj? then Ok(Bare(UNHEALTHY, "malformed_network_info"))
          else
            var version := VersionOf(Get(net.data.fields, Key.version));
            if version.None? || version.value.Number() != EXPECTED_VERSION then
              Ok(NodeHealth(INCOMPATIBLE, Some(chain.t), version, blocks, headers, Some(Str("incompatible_version"))))
            else
              Ok(NodeHealth(HEALTHY, Some(chain.t), version, blocks, headers, Some(Str("ready"))))
  }

  // ----- The probe, in words -----

  /** A JSON-RPC error code for a node that is still loading. */
  predicate IsWarmupCode(v: Value) {
    v == Int(-28) || v == Flt(Finite(-28.0)) || v == Num(Dec(true, 28, 0))
  }

  /** The body is an object whose error object carries that code. */
  predicate SaysWarmup(body: Body) {
    body.Parsed? && body.v.Obj? && Get(body.v.fields, Key.error).Obj? &&
    IsWarmupCode(Get(Get(body.v.fields, Key.error).fields, Key.code))
  }

  /** A good answer: an object without an error, and this its result. */
  predicate Gives(http: Http, data: Value) {
    http.Answered? && http.body.Parsed? && http.body.v.Obj? && Get(http.body.v.fields, Key.error) == Null &&
    Get(http.body.v.fields, Key.result) == data
  }

  /** What each kind of exchange comes to: a result exactly from a good answer, and from anything else this
      state and these details. */
  lemma ExchangeExact(http: Http, data: Value)
    ensures SendCall(http) == Success(data) <==> Gives(http, data)
    ensures SendCall(http) == Escaped <==> http == Broken
    ensures !SendCall(http).Success? && http != Broken ==>
      Categorize(SendCall(http)) ==
        if (http.Answered? && SaysWarmup(http.body)) ||
           (http.Refused? && http.status == 500 && SaysWarmup(http.errorBody))
        then Bare(STARTING, "warming_up")
        else if http.Refused? && http.status == 401 then Bare(UNHEALTHY, "authentication_failed")
        else if http.Unreachable? then Bare(STARTING, "rpc_unreachable")
        else if http.Answered? && !(http.body.Parsed? && http.body.v.Obj?)
        then Bare(UNHEALTHY, "malformed_rpc_response")
        else Bare(UNHEALTHY, "rpc_error")
  {
    hide AsMap;
  }

  /** What the probe finds once both exchanges gave a result. */
  lemma ProbeReads(show: Value -> Str, first: Http, second: Http, info: Value, net: Value)
    requires Gives(first, info)
    ensures var r := Probe(show, true, true, first, second);
      !info.Obj? ==> r == Ok(Bare(UNHEALTHY, "malformed_blockchain_info"))
    ensures var r := Probe(show, true, true, first, second);
      info.Obj? && Get(info.fields, Key.chain) != Value.Text(Str("regtest")) ==>
        r.Ok? && r.value.state == INCOMPATIBLE && r.value.details == Some(Str("incompatible_chain")) &&
        r.value.version == None && BlocksRead(info.fields, r.value)
    ensures var r := Probe(show, true, true, first, second);
      info.Obj? && Get(info.fields, Key.chain) == Value.Text(Str("regtest")) && Gives(second, net) ==>
        (!net.Obj? ==> r == Ok(Bare(UNHEALTHY, "malformed_network_info"))) &&
        (net.Obj? ==> r.Ok? && BlocksRead(info.fields, r.value) && r.value.chain == Some(Str("regtest")) &&
                      VersionRead(Get(net.fields, Key.version), r.value))
  {
    hide AsMap;
  }

  predicate BlocksRead(f: Fields, h: NodeHealth) {
    h.blocks == IntRead(Get(f, Key.blocks)) && h.headers == IntRead(Get(f, Key.headers))
  }

  /** HEALTHY and "ready" exactly for the integer 310100; else the version, if it is an integer, is reported. */
  predicate VersionRead(v: Value, h: NodeHealth) {
    if v == Int(310100) then h.state == HEALTHY && h.details == Some(Str("ready")) && h.version == Some(Whole(310100))
    else
      h.state == INCOMPATIBLE && h.details == Some(Str("incompatible_version")) &&
      h.version == match v
                   case Int(n) => Some(Whole(n))
                   case Bool(b) => Some(Truth(b))
                   case _ => None
  }

  /** What it finds when it cannot ask, or when an exchange fails. */
  lemma ProbeFails(show: Value -> Str, timeoutPositive: bool, cookieReadable: bool, first: Http, second: Http,
                   info: Value)
    ensures var r := Probe(show, timeoutPositive, cookieReadable, first, second);
      (!timeoutPositive ==> r == Ok(Bare(UNKNOWN, "timeout_expired"))) &&
      (timeoutPositive && !cookieReadable ==> r == Ok(Bare(STARTING, "cookie_file_unavailable")))
    ensures var r := Probe(show, true, true, first, second);
      (first == Broken ==> r == Err(OtherException)) &&
      (first != Broken && !SendCall(first).Success? ==> r == Ok(Categorize(SendCall(first)))) &&
      (Gives(first, info) && info.Obj? && Get(info.fields, Key.chain) == Value.Text(Str("regtest")) ==>
        (second == Broken ==> r == Err(OtherException)) &&
        (second != Broken && !SendCall(second).Success? ==> r == Ok(Categorize(SendCall(second)))))
  {
    hide AsMap, Categorize;
  }

  /** Every report the probe can produce survives printing and re-reading on the host. */
  lemma ProbeSurvives(lib: Library, timeoutPositive: bool, cookieReadable: bool, first: Http, second: Http,
                      out: string, nodeId: string, v: Value)
    requires var p := Probe(lib.show, timeoutPositive, cookieReadable, first, second);
      p.Ok? && lib.loads(Strip(out)) == Some(v) && Strip(out) != "" && PrintsStatus(v, nodeId, p.value.state, p.value)
    ensures SameHealth(HostHealth(lib, out), Probe(lib.show, timeoutPositive, cookieReadable, first, second).value)
  {
    HealthRoundTrip(lib, out, nodeId, Probe(lib.show, timeoutPositive, cookieReadable, first, second).value, v);
  }

  /** Both exchanges succeeded, and show the expected chain and the expected version. */
  predicate NodeAnswersRight(first: Http, second: Http) {
    var (call, net) := (SendCall(first), SendCall(second));
    call.Success? && call.data.Obj? && IsText(Get(call.data.fields, Key.chain), EXPECTED_CHAIN) &&
    net.Success? && net.data.Obj? && Get(net.data.fields, Key.version) == Int(EXPECTED_VERSION)
  }

  lemma ProbeHealthy(show: Value -> Str, timeoutPositive: bool, cookieReadable: bool, first: Http, second: Http)
    ensures var p := Probe(show, timeoutPositive, cookieReadable, first, second);
      p.Ok? && p.value.state == HEALTHY <==>
      timeoutPositive && cookieReadable && NodeAnswersRight(first, second)
  {
  }

  /** End to end, HEALTHY on the host means the node itself answered with the expected chain
      and the expected version. */
  lemma HealthyIsTrue(lib: Library, timeoutPositive: bool, cookieReadable: bool, first: Http, second: Http,
                      out: string, nodeId: string, v: Value)
    requires var p := Probe(lib.show, timeoutPositive, cookieReadable, first, second);
      p.Ok? && lib.loads(Strip(out)) == Some(v) && Strip(out) != "" && PrintsStatus(v, nodeId, p.value.state, p.value)
    ensures HostHealth(lib, out).state == HEALTHY <==>
      timeoutPositive && cookieReadable && NodeAnswersRight(first, second)
  {
    ProbeSurvives(lib, timeoutPositive, cookieReadable, first, second, out, nodeId, v);
    ProbeHealthy(lib.show, timeoutPositive, cookieReadable, first, second);
  }
}
