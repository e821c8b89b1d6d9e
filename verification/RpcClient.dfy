/** The RPC client as the program that runs: a chunk loop under a shared deadline, and four
    lookups built on it. Every method does exactly what RpcSpec says. */
module RpcClient {
  import opened Outcome
  import opened Text
  import opened Json
  import opened Domain
  import opened Runs
  import opened RpcWorld
  import opened RpcSpec
  import opened AdapterSpec
  import opened Peers

  /** Where the client runs: a clock, a cookie file and a peer. */
  class Container {
    const env: Script
    var moment: Moment
    var trace: seq<Event>

    constructor (env: Script, start: Moment)
      ensures this.env == env && moment == start && trace == []
    {
      this.env := env;
      moment, trace := start, [];
    }

    /** `time.monotonic()` */
    method Monotonic() returns (now: real)
      modifies this
      ensures moment == Read(env, old(moment)) && now == moment.now && trace == old(trace)
    {
      moment := Read(env, moment);
      now := moment.now;
    }

    /** Reads and checks the cookie file. */
    method ReadCookie() returns (good: bool)
      modifies this
      ensures moment == Read(env, old(moment)) && good == env(old(moment).step).cookie && trace == old(trace)
    {
      good := env(moment.step).cookie;
      moment := Read(env, moment);
    }

    method Open(rpc: string, params: seq<Value>, budget: real) returns (reply: OpenReply)
      modifies this
      ensures var tick := env(old(moment).step);
        reply == tick.open && moment == After(old(moment), tick.lasts) &&
        trace == old(trace) + [Request(rpc, params, budget, old(moment).now, moment.now)]
    {
      var tick := env(moment.step);
      var began := moment.now;
      moment := After(moment, tick.lasts);
      reply := tick.open;
      trace := trace + [Request(rpc, params, budget, began, moment.now)];
    }

    /** `resp.read(65536)` with the socket timeout set to `budget`. */
    method ReadChunk(budget: real) returns (reply: ReadReply)
      modifies this
      ensures var tick := env(old(moment).step);
        reply == tick.read && moment == After(old(moment), tick.lasts) &&
        trace == old(trace) + [Reading(tick.read, budget, old(moment).now, moment.now)]
    {
      var tick := env(moment.step);
      var began := moment.now;
      moment := After(moment, tick.lasts);
      reply := tick.read;
      trace := trace + [Reading(reply, budget, began, moment.now)];
    }
  }

  ghost predicate Did<T>(place: Container, before: seq<Event>, out: Result<T>, r: Run<T, Event>)
    reads place
  {
    out == r.out && place.moment == r.at && place.trace == before + r.events
  }

  /** One turn of the chunk loop. */
  lemma DrainUnfolds(env: Script, m: Moment, deadline: real, got: Bytes)
    requires |got| <= MAX_RESPONSE
    ensures var t := Read(env, m);
      Drain(env, m, deadline, got) ==
      if deadline - t.now <= 0.0 then Run(Err(RpcTimeoutError), t, [])
      else
        var one := ReadOnce(env, t, deadline, deadline - t.now);
        if one.out.Err? then Failed(one)
        else if one.out.value == [] then Run(Ok(got), one.at, one.events)
        else if |got| + |one.out.value| > MAX_RESPONSE then Run(Err(RpcResponseSizeExceededError), one.at, one.events)
        else Then(one, Drain(env, one.at, deadline, got + one.out.value))
  {
    hide InTime, ReadOnce;
  }

  class BitcoinRpcClient {
    const lib: RpcLibrary
    const place: Container

    constructor (lib: RpcLibrary, place: Container)
      ensures this.lib == lib && this.place == place
    {
      this.lib, this.place := lib, place;
    }

    /** Reads once, and fails if that used up the time. */
    method ReadWithin(deadline: real, left: real) returns (out: Result<Bytes>)
      requires 0.0 < left == deadline - place.moment.now
      modifies place
      ensures Did(place, old(place.trace), out, ReadOnce(place.env, old(place.moment), deadline, left))
    {
      hide InTime;
      var reply := place.ReadChunk(left);
      match reply {
        case ReadTimedOut => return Err(RpcTimeoutError);
        case ReadFailed => return Err(RpcUnavailableError);
        case ReadRaised => return Err(OtherException);
        case Chunk(bytes) =>
          var now := place.Monotonic();
          if deadline - now <= 0.0 {
            return Err(RpcTimeoutError);
          }
          return Ok(bytes);
      }
    }

    /** The chunk loop of `_read_and_parse_envelope`. */
    method ReadBody(deadline: real) returns (out: Result<Bytes>)
      modifies place
      ensures Did(place, old(place.trace), out, Drain(place.env, old(place.moment), deadline, []))
    {
      hide Drain, ReadOnce, InTime, Read, After;
      var body: Bytes, total: nat := [], 0;
      ghost var whole := Drain(place.env, place.moment, deadline, []);
      ghost var done: seq<Event> := [];
      while true
        invariant total == |body| <= MAX_RESPONSE && place.trace == old(place.trace) + done
        invariant var rest := Drain(place.env, place.moment, deadline, body);
          whole == Run(rest.out, rest.at, done + rest.events)
        decreases MAX_RESPONSE - total
      {
        DrainUnfolds(place.env, place.moment, deadline, body);
        var now := place.Monotonic();
        var remaining := deadline - now;
        if remaining <= 0.0 {
          return Err(RpcTimeoutError);
        }
        ghost var one := ReadOnce(place.env, place.moment, deadline, remaining);
        var chunk := ReadWithin(deadline, remaining);
        done := done + one.events;
        if chunk.Err? {
          return Err(chunk.error);
        }
        if chunk.value == [] {
          break;
        }
        total := total + |chunk.value|;
        if total > MAX_RESPONSE {
          return Err(RpcResponseSizeExceededError);
        }
        body := body + chunk.value;
      }
      out := Ok(body);
    }

    method ReadEnvelope(reqId: string, deadline: real) returns (out: Result<Value>)
      modifies place
      ensures Did(place, old(place.trace), out, Envelope(lib, place.env, old(place.moment), reqId, deadline))
    {
      hide Drain, ParseBody;
      var body := ReadBody(deadline);
      if body.Err? {
        return Err(body.error);
      }
      out := ParseBody(lib, body.value, reqId);
    }

    method HandleResponse(reply: OpenReply, reqId: string, deadline: real) returns (out: Result<Value>)
      modifies place
      ensures Did(place, old(place.trace), out, AfterOpen(lib, place.env, old(place.moment), reply, reqId, deadline))
    {
      hide Envelope;
      match reply {
        case Opened =>
          out := ReadEnvelope(reqId, deadline);
        case HttpError(status) =>
          if status == 401 || status == 403 {
            return Err(RpcAuthenticationError);
          }
          if status == 500 {
            out := ReadEnvelope(reqId, deadline);
            if out.Ok? {
              return Err(RpcProtocolError);
            }
            return;
          }
          return Err(RpcUnavailableError);
        case Redirected => return Err(RpcUnavailableError);
        case OpenTimedOut => return Err(RpcTimeoutError);
        case OpenFailed => return Err(RpcUnavailableError);
        case OpenRaised => return Err(OtherException);
      }
    }

    method SendRequest(rpc: string, params: seq<Value>, reqId: string, deadline: real) returns (out: Result<Value>)
      modifies place
      ensures Did(place, old(place.trace), out, Send(lib, place.env, old(place.moment), rpc, params, reqId, deadline))
    {
      hide AfterOpen, InTime, AllowedMethod, Serializable;
      if !AllowedMethod(rpc) {
        return Err(RpcError);
      }
      var now := place.Monotonic();
      if deadline - now <= 0.0 {
        return Err(RpcTimeoutError);
      }
      var cookie := place.ReadCookie();
      if !cookie {
        return Err(RpcAuthenticationError);
      }
      now := place.Monotonic();
      if deadline - now <= 0.0 {
        return Err(RpcTimeoutError);
      }
      if !Serializable(params) {
        return Err(RpcMalformedResponseError);
      }
      var reply := place.Open(rpc, params, deadline - now);
      out := HandleResponse(reply, reqId, deadline);
    }

    method GetNodeOverview(timeout: TimeoutArg) returns (out: Result<NodeOverview>)
      modifies place
      ensures Did(place, old(place.trace), out, RpcSpec.GetNodeOverview(lib, place.env, old(place.moment), timeout))
    {
      hide Send, JudgeNetwork, JudgeChain, OverviewOf, InTime;
      if !GoodDeadline(timeout) {
        return Err(Refusal(timeout, RpcError));
      }
      var now := place.Monotonic();
      var deadline := now + timeout.f.r;
      var net := SendRequest("getnetworkinfo", [], "bitheim-req-1", deadline);
      if net.Err? {
        return Err(net.error);
      }
      var network := JudgeNetwork(net.value);
      if network.Err? {
        return Err(network.error);
      }
      var chain := SendRequest("getblockchaininfo", [], "bitheim-req-2", deadline);
      if chain.Err? {
        return Err(chain.error);
      }
      var judged := JudgeChain(chain.value);
      out := if judged.Ok? then OverviewOf(network.value, judged.value) else Err(judged.error);
    }

    method Resolve(hash: Option<string>, height: Value, deadline: real) returns (out: Result<Str>)
      modifies place
      ensures Did(place, old(place.trace), out, ResolveHash(lib, place.env, old(place.moment), hash, height, deadline))
    {
      hide Send, InTime;
      if hash.Some? {
        return Ok(Str(hash.value));
      }
      if !IsNat(height) {
        return Err(RpcError);
      }
      var r := SendRequest("getblockhash", [height], "bitheim-req-hash", deadline);
      if r.Err? {
        return Err(r.error);
      }
      out := if r.value.Text? then Ok(r.value.t) else Err(RpcMalformedResponseError);
    }

    method GetBlock(hash: Option<string>, height: Value, timeout: TimeoutArg) returns (out: Result<BlockSummary>)
      modifies place
      ensures Did(place, old(place.trace), out,
        RpcSpec.GetBlock(lib, place.env, old(place.moment), hash, height, timeout))
    {
      hide Send, ResolveHash, JudgeBlock, InTime, HexMatch;
      if !GoodDeadline(timeout) {
        return Err(Refusal(timeout, RpcError));
      }
      if hash.Some? == !height.Null? {
        return Err(RpcError);
      }
      var now := place.Monotonic();
      var deadline := now + timeout.f.r;
      var resolved := Resolve(hash, height, deadline);
      if resolved.Err? {
        return Err(resolved.error);
      }
      if !IsHexMatch(Value.Text(resolved.value)) {
        return Err(RpcMalformedResponseError);
      }
      var wanted := resolved.value.s;
      var r := SendRequest("getblock", [FromText(wanted), Int(1)], "bitheim-req-block", deadline);
      if r.Err? {
        return Err(r.error);
      }
      out := JudgeBlock(r.value, wanted);
    }

    method GetMempool(timeout: TimeoutArg) returns (out: Result<MempoolSummary>)
      modifies place
      ensures Did(place, old(place.trace), out, RpcSpec.GetMempool(lib, place.env, old(place.moment), timeout))
    {
      hide Send, MempoolOf;
      if !GoodDeadline(timeout) {
        return Err(Refusal(timeout, RpcError));
      }
      var now := place.Monotonic();
      var r := SendRequest("getmempoolinfo", [], "bitheim-req-mempool", now + timeout.f.r);
      if r.Err? {
        return Err(r.error);
      }
      out := if r.value.Obj? then MempoolOf(r.value.fields) else Err(RpcMalformedResponseError);
    }

    method GetPeers(timeout: TimeoutArg) returns (out: Result<seq<PeerSummary>>)
      modifies place
      ensures Did(place, old(place.trace), out, RpcSpec.GetPeers(lib, place.env, old(place.moment), timeout))
    {
      hide Send, PeersOf;
      if !GoodDeadline(timeout) {
        return Err(Refusal(timeout, RpcError));
      }
      var now := place.Monotonic();
      var r := SendRequest("getpeerinfo", [], "bitheim-req-peers", now + timeout.f.r);
      if r.Err? {
        return Err(r.error);
      }
      out := CollectPeers(r.value);
    }

    /** The loop over the listed peers, and the sort. */
    method CollectPeers(list: Value) returns (out: Result<seq<PeerSummary>>)
      ensures out == PeersOf(lib, list)
    {
      hide PeerOf;
      if !list.Arr? || |list.items| > 256 {
        return Err(RpcMalformedResponseError);
      }
      var parsed: seq<PeerSummary>, ids: set<int> := [], {};
      ghost var all := Map(x => PeerOf(lib.toFloat, x), list.items);
      for n := 0 to |list.items|
        invariant |parsed| == n && forall i :: 0 <= i < n ==> all[i] == Some(parsed[i])
        invariant DistinctIds(parsed)
        invariant forall id :: id in ids <==> exists i :: 0 <= i < n && parsed[i].peerId == id
      {
        var peer := PeerOf(lib.toFloat, list.items[n]);
        assert all[n] == peer;
        if peer.None? {
          assert !AllSome(all);
          return Err(RpcMalformedResponseError);
        }
        if peer.value.peerId in ids {
          RepeatRefused(all, n);
          return Err(RpcMalformedResponseError);
        }
        ids := ids + {peer.value.peerId};
        parsed := parsed + [peer.value];
      }
      assert Values(all) == parsed;
      return Ok(SortById(parsed));
    }
  }
}
