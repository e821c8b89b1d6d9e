/** The RPC client's operations as functions of the world. */
module RpcSpec {
  import opened Outcome
  import opened Text
  import opened Json
  import opened Domain
  import opened Process
  import opened Runs
  import opened RpcWorld
  import opened AdapterSpec
  import opened Peers
  import Fees

  const MAX_RESPONSE := 4194304
  const MAX_DEPTH := 32

  /** `bytes.decode("utf-8")`, `json.loads(text, parse_float=Decimal)`, and `float(decimal)`. */
  datatype RpcLibrary = RpcLibrary(decode: Bytes -> Option<string>, loads: Loads, toFloat: Decimal -> Float)

  // ----- Reading and judging one response -----

  /** The chunk loop. */
  function Drain(env: Script, m: Moment, deadline: real, got: Bytes): (r: Run<Bytes, Event>)
    requires |got| <= MAX_RESPONSE
    ensures InTime(m, deadline, r.at, r.events)
    decreases MAX_RESPONSE - |got|
  {
    hide InTime;
    var t := Read(env, m);
    var left := deadline - t.now;
    Idle(env, m, deadline);
    if left <= 0.0 then Run(Err(RpcTimeoutError), t, [])
    else
      var one := ReadOnce(env, t, deadline, left);
      SinceEarlier(m, t, deadline, one.at, one.events);
      if one.out.Err? then Failed(one)
      else if one.out.value == [] then Run(Ok(got), one.at, one.events)
      else if |got| + |one.out.value| > MAX_RESPONSE then Run(Err(RpcResponseSizeExceededError), one.at, one.events)
      else
        var rest := Drain(env, one.at, deadline, got + one.out.value);
        Sequel(m, deadline, one.at, one.events, rest.at, rest.events);
        Then(one, rest)
  }

  /** One blocking read, and the look at the clock after it. */
  function ReadOnce(env: Script, t: Moment, deadline: real, left: real): (r: Run<Bytes, Event>)
    requires 0.0 < left == deadline - t.now
    ensures InTime(t, deadline, r.at, r.events)
    ensures r.out.Ok? ==> r.events != [] && r.events[0].Reading? && r.events[0].reply == Chunk(r.out.value)
    ensures |r.events| == 1 && (r.out.Ok? ==> r.at.now < deadline)
  {
    var tick := env(t.step);
    var done := After(t, tick.lasts);
    var events := [Reading(tick.read, left, t.now, done.now)];
    match tick.read
    case ReadTimedOut => Run(Err(RpcTimeoutError), done, events)
    case ReadFailed => Run(Err(RpcUnavailableError), done, events)
    case ReadRaised => Run(Err(OtherException), done, events)
    case Chunk(bytes) =>
      var u := Read(env, done);
      if deadline - u.now <= 0.0 then Run(Err(RpcTimeoutError), u, events)
      else Run(Ok(bytes), u, events)
  }

  /** The error member decides the exception. */
  function ErrorOf(err: Value): Failure
    requires !err.Null?
  {
    if !err.Obj? then RpcMalformedResponseError
    else
      var code := Get(err.fields, Key.code);
      if !code.Int? then RpcMalformedResponseError
      else if code.i == -5 then RpcResourceNotFoundError
      else RpcProtocolError
  }

  function JudgeEnvelope(v: Value, reqId: string): Result<Value> {
    if !v.Obj? || !CheckDepth(v, 1, MAX_DEPTH) then Err(RpcMalformedResponseError)
    else
      var m := AsMap(v.fields);
      if Key.id !in m || Key.result !in m || Key.error !in m then Err(RpcMalformedResponseError)
      else if !IsText(m[Key.id], reqId) then Err(RpcMalformedResponseError)
      else if !m[Key.error].Null? then
        if !m[Key.result].Null? then Err(RpcMalformedResponseError) else Err(ErrorOf(m[Key.error]))
      else if m[Key.result].Null? then Err(RpcMalformedResponseError)
      else Ok(m[Key.result])
  }

  function ParseBody(lib: RpcLibrary, body: Bytes, reqId: string): Result<Value> {
    var text := lib.decode(body);
    if text.None? then Err(RpcMalformedResponseError)
    else
      var v := LoadsUnique(lib.loads, text.value);
      if v.None? then Err(RpcMalformedResponseError) else JudgeEnvelope(v.value, reqId)
  }

  /** `_read_and_parse_envelope` */
  function Envelope(lib: RpcLibrary, env: Script, m: Moment, reqId: string, deadline: real): (r: Run<Value, Event>)
    ensures InTime(m, deadline, r.at, r.events)
  {
    var body := Drain(env, m, deadline, []);
    if body.out.Err? then Failed(body) else Run(ParseBody(lib, body.out.value, reqId), body.at, body.events)
  }

  // ----- One request -----

  predicate AllowedMethod(rpc: string) {
    rpc in ["getnetworkinfo", "getblockchaininfo", "getblockhash", "getblock", "getmempoolinfo", "getpeerinfo"]
  }

  /** What follows the opening of the request. */
  function AfterOpen(lib: RpcLibrary, env: Script, m: Moment, reply: OpenReply, reqId: string, deadline: real)
    : (r: Run<Value, Event>)
    ensures InTime(m, deadline, r.at, r.events)
  {
    hide InTime, ParseBody;
    Idle(env, m, deadline);
    match reply
    case Opened => Envelope(lib, env, m, reqId, deadline)
    case HttpError(status) =>
      if status == 401 || status == 403 then Run(Err(RpcAuthenticationError), m, [])
      else if status == 500 then
        var r := Envelope(lib, env, m, reqId, deadline);
        if r.out.Err? then r else Run(Err(RpcProtocolError), r.at, r.events)
      else Run(Err(RpcUnavailableError), m, [])
    case Redirected => Run(Err(RpcUnavailableError), m, [])
    case OpenTimedOut => Run(Err(RpcTimeoutError), m, [])
    case OpenFailed => Run(Err(RpcUnavailableError), m, [])
    case OpenRaised => Run(Err(OtherException), m, [])
  }

  /** Opening the request with the time left, and handling what comes back. */
  function Exchange(lib: RpcLibrary, env: Script, t: Moment, rpc: string, params: seq<Value>, reqId: string,
                    deadline: real): (r: Run<Value, Event>)
    requires t.now < deadline
    ensures InTime(t, deadline, r.at, r.events)
    ensures r.events != [] && r.events[0].Request? && r.events[0].rpc == rpc && r.events[0].params == params
  {
    var tick := env(t.step);
    var done := After(t, tick.lasts);
    var sent := [Request(rpc, params, deadline - t.now, t.now, done.now)];
    var rest := AfterOpen(lib, env, done, tick.open, reqId, deadline);
    assert InTime(t, deadline, done, sent);
    Sequel(t, deadline, done, sent, rest.at, rest.events);
    Run(rest.out, rest.at, sent + rest.events)
  }

  /** `json.dumps` can write the parameters: no integer has too many digits. */
  predicate Serializable(params: seq<Value>) {
    forall p :: p in params && IsNat(p) ==> !Unprintable(p.i)
  }

  /** `_send_request`: nothing is sent once the deadline has passed, before or after the cookie is read. */
  function Send(lib: RpcLibrary, env: Script, m: Moment, rpc: string, params: seq<Value>, reqId: string,
                deadline: real): (r: Run<Value, Event>)
    ensures InTime(m, deadline, r.at, r.events)
  {
    hide InTime, Exchange, AllowedMethod, Serializable;
    Idle(env, m, deadline);
    if !AllowedMethod(rpc) then Run(Err(RpcError), m, [])
    else
      var t := Read(env, m);
      if deadline - t.now <= 0.0 then Run(Err(RpcTimeoutError), t, [])
      else
        var c := Read(env, t);
        Idle(env, t, deadline);
        SinceEarlier(m, t, deadline, c, []);
        if !env(t.step).cookie then Run(Err(RpcAuthenticationError), c, [])
        else
          var u := Read(env, c);
          Idle(env, c, deadline);
          SinceEarlier(m, c, deadline, u, []);
          if deadline - u.now <= 0.0 then Run(Err(RpcTimeoutError), u, [])
          else if !Serializable(params) then Run(Err(RpcMalformedResponseError), u, [])
          else
            var r := Exchange(lib, env, u, rpc, params, reqId, deadline);
            SinceEarlier(m, u, deadline, r.at, r.events);
            r
  }

  // ----- Reading results -----

  /** The network facts that `get_node_overview` needs. */
  function JudgeNetwork(v: Value): Result<Fields> {
    if !v.Obj? then Err(RpcMalformedResponseError)
    else
      var f := v.fields;
      var (version, subversion) := (Get(f, Key.version), Get(f, Key.subversion));
      if !version.Int? then Err(RpcMalformedResponseError)
      else if subversion.Text? && subversion.t.Lone? then Err(ValueError)
      else if !IsGoodText(subversion) || !Get(f, Key.networkactive).Bool? || !IsNat(Get(f, Key.connections)) then
        Err(RpcMalformedResponseError)
      else if version.i != EXPECTED_VERSION then Err(RpcIncompatibleNodeError)
      else Ok(f)
  }

  function JudgeChain(v: Value): Result<Fields> {
    if !v.Obj? then Err(RpcMalformedResponseError)
    else
      var f := v.fields;
      var chain := Get(f, Key.chain);
      if chain.Text? && chain.t.Lone? then Err(ValueError)
      else if !chain.Text? || Utf8Len(chain.t.s) > 512 || !IsNat(Get(f, Key.blocks)) || !IsNat(Get(f, Key.headers)) ||
              !IsHexMatch(Get(f, Key.bestblockhash)) || !IsNat(Get(f, Key.mediantime)) ||
              !Get(f, Key.initialblockdownload).Bool? || !Get(f, Key.pruned).Bool? ||
              !IsHexMatchOrNone(Get(f, Key.chainwork)) then Err(RpcMalformedResponseError)
      else if !IsText(chain, EXPECTED_CHAIN) then Err(RpcIncompatibleNodeError)
      else Ok(f)
  }

  function OverviewOf(net: Fields, chain: Fields): Result<NodeOverview> {
    var o := MakeOverview(OverviewArgs(
      Get(net, Key.version), Get(net, Key.subversion), Get(net, Key.networkactive), Get(net, Key.connections),
      Get(chain, Key.chain), Get(chain, Key.blocks), Get(chain, Key.headers), Get(chain, Key.bestblockhash),
      Get(chain, Key.mediantime), Get(chain, Key.initialblockdownload), Get(chain, Key.pruned),
      Get(chain, Key.chainwork)));
    if o.Some? then Ok(o.value) else Err(RpcMalformedResponseError)
  }

  function BlockOf(f: Fields): Result<BlockSummary> {
    var tx := Get(f, Key.tx);
    if tx.Arr? && (forall id :: id in tx.items ==> IsHexMatch(id)) then
      var b := MakeBlock(BlockArgs(
        Get(f, Key.hash), Get(f, Key.height), Get(f, Key.confirmations), Get(f, Key.time), Int(|tx.items|),
        Get(f, Key.size), Get(f, Key.weight), Get(f, Key.previousblockhash), Get(f, Key.nextblockhash)));
      if b.Some? then Ok(b.value) else Err(RpcMalformedResponseError)
    else Err(RpcMalformedResponseError)
  }

  function MempoolOf(f: Fields): Result<MempoolSummary> {
    var fee := Get(f, Key.total_fee);
    var satoshis := if fee.Num? then Fees.Satoshis(fee.d) else None;
    if satoshis.None? then Err(RpcMalformedResponseError)
    else
      var m := MakeMempool(MempoolArgs(
        Get(f, Key.loaded), Get(f, Key.size), Get(f, Key.bytes), Get(f, Key.usage), Get(f, Key.maxmempool),
        Int(satoshis.value)));
      if m.Some? then Ok(m.value) else Err(RpcMalformedResponseError)
  }

  /** -1 stands for "not yet known". */
  predicate IsHeight(v: Value) { v.Int? && v.i >= -1 }

  function KnownHeight(v: Value): Value { if v == Int(-1) then Null else v }

  /** The ping time as a float; `None` when the member is present but unusable. */
  function PingOf(toFloat: Decimal -> Float, f: Fields): Option<Value> {
    if Key.pingtime !in AsMap(f) then Some(Null)
    else
      var v := Get(f, Key.pingtime);
      if v.Num? && v.d.Dec? && !(v.d.negative && v.d.coeff > 0) then Some(Flt(toFloat(v.d))) else None
  }

  /** `_parse_peer` on one item of the array; `None` is its malformed-response error. */
  function PeerOf(toFloat: Decimal -> Float, v: Value): Option<PeerSummary> {
    if !v.Obj? then None
    else
      var f := v.fields;
      var ping := PingOf(toFloat, f);
      var (headers, blocks) := (Get(f, Key.synced_headers), Get(f, Key.synced_blocks));
      if !IsHeight(headers) || !IsHeight(blocks) || ping.None? then None
      else
        MakePeer(PeerArgs(
          Get(f, Key.id), Get(f, Key.addr), Get(f, Key.network), Get(f, Key.inbound), Get(f, Key.connection_type),
          Get(f, Key.version), Get(f, Key.subver), KnownHeight(headers), KnownHeight(blocks), ping.value))
  }

  function PeersOf(lib: RpcLibrary, v: Value): Result<seq<PeerSummary>> {
    if !v.Arr? then Err(RpcMalformedResponseError)
    else
      var peers := Canonical(Map(x => PeerOf(lib.toFloat, x), v.items));
      if peers.Some? then Ok(peers.value) else Err(RpcMalformedResponseError)
  }

  // ----- The four lookups -----

  /** `get_node_overview(timeout)` by a deadline. */
  function OverviewBy(lib: RpcLibrary, env: Script, m: Moment, deadline: real): (r: Run<NodeOverview, Event>)
    ensures InTime(m, deadline, r.at, r.events)
  {
    hide InTime, Send, JudgeNetwork, JudgeChain, OverviewOf;
    var net := Send(lib, env, m, "getnetworkinfo", [], "bitheim-req-1", deadline);
    if net.out.Err? then Failed(net)
    else
      var network := JudgeNetwork(net.out.value);
      if network.Err? then Run(Err(network.error), net.at, net.events)
      else
        var chain := Send(lib, env, net.at, "getblockchaininfo", [], "bitheim-req-2", deadline);
        Sequel(m, deadline, net.at, net.events, chain.at, chain.events);
        if chain.out.Err? then Then(net, Failed<Value, NodeOverview, Event>(chain))
        else
          var judged := JudgeChain(chain.out.value);
          Then(net, Run(if judged.Ok? then OverviewOf(network.value, judged.value) else Err(judged.error),
                        chain.at, chain.events))
  }

  function GetNodeOverview(lib: RpcLibrary, env: Script, m: Moment, timeout: TimeoutArg): Run<NodeOverview, Event> {
    if !GoodDeadline(timeout) then Run(Err(Refusal(timeout, RpcError)), m, [])
    else
      var t := Read(env, m);
      OverviewBy(lib, env, t, t.now + timeout.f.r)
  }

  /** The hash a block is asked for by: the given one, or the one at the given height. */
  function ResolveHash(lib: RpcLibrary, env: Script, m: Moment, hash: Option<string>, height: Value, deadline: real)
    : (r: Run<Str, Event>)
    ensures InTime(m, deadline, r.at, r.events)
  {
    hide InTime, Send;
    Idle(env, m, deadline);
    if hash.Some? then Run(Ok(Str(hash.value)), m, [])
    else if !IsNat(height) then Run(Err(RpcError), m, [])
    else
      var r := Send(lib, env, m, "getblockhash", [height], "bitheim-req-hash", deadline);
      if r.out.Err? then Failed(r)
      else Run(if r.out.value.Text? then Ok(r.out.value.t) else Err(RpcMalformedResponseError), r.at, r.events)
  }

  function JudgeBlock(v: Value, wanted: string): Result<BlockSummary> {
    if !v.Obj? then Err(RpcMalformedResponseError)
    else
      var b := BlockOf(v.fields);
      if b.Ok? && b.value.hash != wanted then Err(RpcMalformedResponseError) else b
  }

  function BlockBy(lib: RpcLibrary, env: Script, m: Moment, hash: Option<string>, height: Value, deadline: real)
    : (r: Run<BlockSummary, Event>)
    ensures InTime(m, deadline, r.at, r.events)
  {
    hide InTime, Send, ResolveHash, JudgeBlock;
    var resolved := ResolveHash(lib, env, m, hash, height, deadline);
    if resolved.out.Err? then Failed(resolved)
    else if !IsHexMatch(Value.Text(resolved.out.value)) then
      Run(Err(RpcMalformedResponseError), resolved.at, resolved.events)
    else
      var wanted := resolved.out.value.s;
      var r := Send(lib, env, resolved.at, "getblock", [FromText(wanted), Int(1)], "bitheim-req-block", deadline);
      Sequel(m, deadline, resolved.at, resolved.events, r.at, r.events);
      if r.out.Err? then Then(resolved, Failed<Value, BlockSummary, Event>(r))
      else Then(resolved, Run(JudgeBlock(r.out.value, wanted), r.at, r.events))
  }

  /** `get_block(block_hash=…, height=…)`: exactly one of the two must be given. */
  function GetBlock(lib: RpcLibrary, env: Script, m: Moment, hash: Option<string>, height: Value, timeout: TimeoutArg)
    : Run<BlockSummary, Event>
  {
    if !GoodDeadline(timeout) then Run(Err(Refusal(timeout, RpcError)), m, [])
    else if hash.Some? == !height.Null? then Run(Err(RpcError), m, [])
    else
      var t := Read(env, m);
      BlockBy(lib, env, t, hash, height, t.now + timeout.f.r)
  }

  function GetMempool(lib: RpcLibrary, env: Script, m: Moment, timeout: TimeoutArg): Run<MempoolSummary, Event> {
    if !GoodDeadline(timeout) then Run(Err(Refusal(timeout, RpcError)), m, [])
    else
      var t := Read(env, m);
      var r := Send(lib, env, t, "getmempoolinfo", [], "bitheim-req-mempool", t.now + timeout.f.r);
      if r.out.Err? then Failed(r)
      else
        var v := r.out.value;
        Run(if v.Obj? then MempoolOf(v.fields) else Err(RpcMalformedResponseError), r.at, r.events)
  }

  function GetPeers(lib: RpcLibrary, env: Script, m: Moment, timeout: TimeoutArg): Run<seq<PeerSummary>, Event> {
    if !GoodDeadline(timeout) then Run(Err(Refusal(timeout, RpcError)), m, [])
    else
      var t := Read(env, m);
      var r := Send(lib, env, t, "getpeerinfo", [], "bitheim-req-peers", t.now + timeout.f.r);
      if r.out.Err? then Failed(r) else Run(PeersOf(lib, r.out.value), r.at, r.events)
  }
}
