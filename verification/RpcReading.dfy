/** What the client makes of the node's answers, member by member and error by error. */
module RpcReading {
  import opened Outcome
  import opened Text
  import opened Json
  import opened Domain
  import opened Runs
  import opened RpcWorld
  import opened RpcSpec
  import opened RpcSafety
  import opened AdapterSpec
  import opened Peers
  import Fees
  import opened HostReading
  import Cidr

  // ----- getblock -----

  /** The members of a `getblock` answer that stands for the block. */
  predicate BlockReads(f: Fields, b: BlockSummary) {
    Get(f, Key.hash) == FromText(b.hash) && Get(f, Key.height) == Int(b.height) &&
    Get(f, Key.confirmations) == Int(b.confirmations) && Get(f, Key.time) == Int(b.timestamp) &&
    Get(f, Key.size) == Int(b.size) && Get(f, Key.weight) == Int(b.weight) &&
    Get(f, Key.previousblockhash) == FromOptionalText(b.previousBlockHash) &&
    Get(f, Key.nextblockhash) == FromOptionalText(b.nextBlockHash) &&
    var tx := Get(f, Key.tx);
    tx.Arr? && |tx.items| == b.transactionCount && forall id :: id in tx.items ==> IsHexMatch(id)
  }

  /** The client reads a block from exactly the answers that stand for it. */
  lemma BlockOfIff(f: Fields, b: BlockSummary)
    ensures BlockOf(f) == Ok(b) <==> BlockReads(f, b) && b.Valid()
  {
    hide HexMatch, AsMap;
  }

  /** The node's dictionary of a block with these transactions. */
  function NodeBlock(b: BlockSummary, ids: seq<Value>): map<Key, Value> {
    map[Key.hash := FromText(b.hash), Key.height := Int(b.height), Key.confirmations := Int(b.confirmations),
        Key.time := Int(b.timestamp), Key.tx := Arr(ids), Key.size := Int(b.size), Key.weight := Int(b.weight),
        Key.previousblockhash := FromOptionalText(b.previousBlockHash),
        Key.nextblockhash := FromOptionalText(b.nextBlockHash)]
  }

  lemma NodeBlockRead(f: Fields, b: BlockSummary, ids: seq<Value>)
    requires b.Valid() && |ids| == b.transactionCount && forall id :: id in ids ==> IsHexMatch(id)
    requires AsMap(f) == NodeBlock(b, ids)
    ensures BlockOf(f) == Ok(b)
  {
    hide AsMap, HexMatch, BlockOf;
    NodeBlockGets(f, b, ids);
    BlockOfIff(f, b);
  }

  lemma NodeBlockGets(f: Fields, b: BlockSummary, ids: seq<Value>)
    requires AsMap(f) == NodeBlock(b, ids)
    requires |ids| == b.transactionCount && forall id :: id in ids ==> IsHexMatch(id)
    ensures BlockReads(f, b)
  {
    hide AsMap, HexMatch;
  }

  /** The hash a block is asked for by: the given one, or what `getblockhash` answers for the height. */
  lemma ResolveExact(lib: RpcLibrary, env: Script, m: Moment, hash: Option<string>, height: Value, deadline: real)
    ensures var (r, s) := (ResolveHash(lib, env, m, hash, height, deadline),
                           Send(lib, env, m, "getblockhash", [height], "bitheim-req-hash", deadline));
      if hash.Some? then r == Run(Ok(Str(hash.value)), m, [])
      else if !IsNat(height) then r == Run(Err(RpcError), m, [])
      else
        r.at == s.at && r.events == s.events &&
        r.out == if s.out.Err? then Err(s.out.error)
                 else if s.out.value.Text? then Ok(s.out.value.t)
                 else Err(RpcMalformedResponseError)
  {
    hide Send, InTime;
  }

  /** `get_block` returns a block exactly when the resolved hash is well formed and the answer to `getblock` for
      that hash stands for the block, which has that hash. */
  lemma BlockByIff(lib: RpcLibrary, env: Script, m: Moment, hash: Option<string>, height: Value, deadline: real,
                   b: BlockSummary)
    ensures var resolved := ResolveHash(lib, env, m, hash, height, deadline);
      var s := Send(lib, env, resolved.at, "getblock", [FromText(b.hash), Int(1)], "bitheim-req-block", deadline);
      BlockBy(lib, env, m, hash, height, deadline).out == Ok(b) <==>
        resolved.out == Ok(Str(b.hash)) && b.Valid() && s.out.Ok? && s.out.value.Obj? &&
        BlockReads(s.out.value.fields, b)
  {
    hide Send, ResolveHash, InTime, BlockOf, BlockReads, HexMatch;
    var resolved := ResolveHash(lib, env, m, hash, height, deadline);
    if resolved.out.Ok? && IsHexMatch(Value.Text(resolved.out.value)) {
      var wanted := resolved.out.value.s;
      var s := Send(lib, env, resolved.at, "getblock", [FromText(wanted), Int(1)], "bitheim-req-block", deadline);
      if s.out.Ok? && s.out.value.Obj? {
        BlockOfIff(s.out.value.fields, b);
      }
    }
  }

  // ----- getnetworkinfo and getblockchaininfo -----

  /** The members of two answers that stand for the overview. */
  predicate OverviewReads(net: Fields, chain: Fields, o: NodeOverview) {
    Get(net, Key.version) == Int(o.version) && Get(net, Key.subversion) == FromText(o.subversion) &&
    Get(net, Key.networkactive) == Bool(o.networkActive) && Get(net, Key.connections) == Int(o.connections) &&
    Get(chain, Key.chain) == FromText(o.chain) && Get(chain, Key.blocks) == Int(o.blocks) &&
    Get(chain, Key.headers) == Int(o.headers) && Get(chain, Key.bestblockhash) == FromText(o.bestBlockHash) &&
    Get(chain, Key.mediantime) == Int(o.medianTime) &&
    Get(chain, Key.initialblockdownload) == Bool(o.initialBlockDownload) &&
    Get(chain, Key.pruned) == Bool(o.pruned) && Get(chain, Key.chainwork) == FromOptionalText(o.chainwork)
  }

  /** The network facts but for the version's value. */
  predicate NetworkTyped(f: Fields) {
    Get(f, Key.version).Int? && IsGoodText(Get(f, Key.subversion)) && Get(f, Key.networkactive).Bool? &&
    IsNat(Get(f, Key.connections))
  }

  /** The chain facts but for the chain's name. */
  predicate ChainTyped(f: Fields) {
    var chain := Get(f, Key.chain);
    chain.Text? && chain.t.Str? && Utf8Len(chain.t.s) <= 512 && IsNat(Get(f, Key.blocks)) &&
    IsNat(Get(f, Key.headers)) && IsHexMatch(Get(f, Key.bestblockhash)) && IsNat(Get(f, Key.mediantime)) &&
    Get(f, Key.initialblockdownload).Bool? && Get(f, Key.pruned).Bool? && IsHexMatchOrNone(Get(f, Key.chainwork))
  }

  /** What each answer is judged to be. */
  lemma JudgedExact(v: Value)
    ensures JudgeNetwork(v).Ok? <==>
      v.Obj? && NetworkTyped(v.fields) && Get(v.fields, Key.version) == Int(310100)
    ensures JudgeNetwork(v) == Err(RpcIncompatibleNodeError) <==>
      v.Obj? && NetworkTyped(v.fields) && Get(v.fields, Key.version) != Int(310100)
    ensures JudgeChain(v).Ok? <==>
      v.Obj? && ChainTyped(v.fields) && Get(v.fields, Key.chain) == Value.Text(Str("regtest"))
    ensures JudgeChain(v) == Err(RpcIncompatibleNodeError) <==>
      v.Obj? && ChainTyped(v.fields) && Get(v.fields, Key.chain) != Value.Text(Str("regtest"))
    ensures JudgeNetwork(v).Ok? ==> JudgeNetwork(v).value == v.fields
    ensures JudgeChain(v).Ok? ==> JudgeChain(v).value == v.fields
  {
    hide GoodText, HexMatch, AsMap, Utf8Len;
  }

  /** Putting the members together: the overview, exactly when it is valid. */
  lemma OverviewOfIff(net: Fields, chain: Fields, o: NodeOverview)
    ensures OverviewOf(net, chain) == Ok(o) <==> OverviewReads(net, chain, o) && o.Valid()
  {
    hide GoodText, StrictHex, AsMap;
  }

  /** A valid overview's members pass both judgements. */
  lemma OverviewJudged(net: Fields, chain: Fields, o: NodeOverview)
    requires OverviewReads(net, chain, o) && o.Valid()
    ensures JudgeNetwork(Obj(net)) == Ok(net) && JudgeChain(Obj(chain)) == Ok(chain)
  {
    hide GoodText, AsMap, Utf8Len, StrictHex, HexMatch, AnyHexMatch;
    PrintableUtf8("regtest");
    HashMatches(o.bestBlockHash);
    if o.chainwork.Some? {
      HashMatches(o.chainwork.value);
    }
  }

  lemma HashMatches(s: string)
    ensures StrictHex(s) ==> HexMatch(s)
  {
  }

  /** `get_node_overview` returns an overview exactly when two answers stand for it, and it is valid. */
  lemma OverviewByIff(lib: RpcLibrary, env: Script, m: Moment, deadline: real, o: NodeOverview)
    ensures var net := Send(lib, env, m, "getnetworkinfo", [], "bitheim-req-1", deadline);
      var chain := Send(lib, env, net.at, "getblockchaininfo", [], "bitheim-req-2", deadline);
      OverviewBy(lib, env, m, deadline).out == Ok(o) <==>
        net.out.Ok? && chain.out.Ok? && net.out.value.Obj? && chain.out.value.Obj? &&
        OverviewReads(net.out.value.fields, chain.out.value.fields, o) && o.Valid()
  {
    hide Send, InTime, JudgeNetwork, JudgeChain, OverviewOf, OverviewReads;
    var net := Send(lib, env, m, "getnetworkinfo", [], "bitheim-req-1", deadline);
    var chain := Send(lib, env, net.at, "getblockchaininfo", [], "bitheim-req-2", deadline);
    if net.out.Ok? && chain.out.Ok? {
      JudgedExact(net.out.value);
      JudgedExact(chain.out.value);
      if net.out.value.Obj? && chain.out.value.Obj? {
        OverviewOfIff(net.out.value.fields, chain.out.value.fields, o);
        if OverviewReads(net.out.value.fields, chain.out.value.fields, o) && o.Valid() {
          OverviewJudged(net.out.value.fields, chain.out.value.fields, o);
        }
      }
    }
  }

  /** It reports incompatibility exactly when good answers show another version or chain. */
  lemma IncompatibleIff(lib: RpcLibrary, env: Script, m: Moment, deadline: real)
    ensures var net := Send(lib, env, m, "getnetworkinfo", [], "bitheim-req-1", deadline);
      var chain := Send(lib, env, net.at, "getblockchaininfo", [], "bitheim-req-2", deadline);
      OverviewBy(lib, env, m, deadline).out == Err(RpcIncompatibleNodeError) <==>
        net.out.Ok? && net.out.value.Obj? && NetworkTyped(net.out.value.fields) &&
        (Get(net.out.value.fields, Key.version) != Int(310100) ||
         (chain.out.Ok? && chain.out.value.Obj? && ChainTyped(chain.out.value.fields) &&
          Get(chain.out.value.fields, Key.chain) != Value.Text(Str("regtest"))))
  {
    hide Send, InTime, JudgeNetwork, JudgeChain, MakeOverview, NetworkTyped, ChainTyped, AsMap;
    var net := Send(lib, env, m, "getnetworkinfo", [], "bitheim-req-1", deadline);
    var chain := Send(lib, env, net.at, "getblockchaininfo", [], "bitheim-req-2", deadline);
    NotIncompatible(lib, env, m, "getnetworkinfo", [], "bitheim-req-1", deadline);
    NotIncompatible(lib, env, net.at, "getblockchaininfo", [], "bitheim-req-2", deadline);
    JudgedExact(if net.out.Ok? then net.out.value else Null);
    JudgedExact(if chain.out.Ok? then chain.out.value else Null);
  }

  lemma NotIncompatible(lib: RpcLibrary, env: Script, m: Moment, rpc: string, params: seq<Value>, reqId: string,
                        deadline: real)
    ensures Send(lib, env, m, rpc, params, reqId, deadline).out != Err(RpcIncompatibleNodeError)
  {
    hide Drain, ParseBody, InTime, AllowedMethod, Serializable;
    var u := Read(env, Read(env, Read(env, m)));
    var done := After(u, env(u.step).lasts);
    DrainClass(env, done, deadline, []);
    var body := Drain(env, done, deadline, []);
    if body.out.Ok? {
      AnswerExact(lib, body.out.value, reqId);
    }
  }

  // ----- getmempoolinfo -----

  /** The members of an answer that stands for the summary. */
  predicate MempoolReads(f: Fields, p: MempoolSummary) {
    Get(f, Key.loaded) == Bool(p.loaded) && Get(f, Key.size) == Int(p.transactionCount) &&
    Get(f, Key.bytes) == Int(p.serializedBytes) && Get(f, Key.usage) == Int(p.dynamicMemoryUsage) &&
    Get(f, Key.maxmempool) == Int(p.maxMemory) &&
    Get(f, Key.total_fee).Num? && Fees.Satoshis(Get(f, Key.total_fee).d) == Some(p.totalFeesSatoshis)
  }

  lemma MempoolOfIff(f: Fields, p: MempoolSummary)
    ensures MempoolOf(f) == Ok(p) <==> MempoolReads(f, p) && p.Valid()
  {
    hide AsMap, Fees.Satoshis;
  }

  // ----- getpeerinfo -----

  /** The height as the node gives it: -1 while it is not known. */
  function NodeHeight(n: Option<int>): Value { if n.None? then Int(-1) else Int(n.value) }

  /** The members of an entry that stands for the peer. */
  predicate PeerReads(toFloat: Decimal -> Float, f: Fields, p: PeerSummary) {
    Get(f, Key.id) == Int(p.peerId) && Get(f, Key.addr) == FromText(p.endpoint) &&
    Get(f, Key.network) == FromText(p.network) && Get(f, Key.inbound) == Bool(p.inbound) &&
    Get(f, Key.connection_type) == FromText(p.connectionType) && Get(f, Key.version) == Int(p.protocolVersion) &&
    Get(f, Key.subver) == FromText(p.subversion) && Get(f, Key.synced_headers) == NodeHeight(p.syncedHeaders) &&
    Get(f, Key.synced_blocks) == NodeHeight(p.syncedBlocks) && PingReads(toFloat, f, p.pingTimeSeconds)
  }

  /** The ping time: absent, or a finite decimal that is not negative, as a float. */
  predicate PingReads(toFloat: Decimal -> Float, f: Fields, ping: Option<real>) {
    if ping.None? then Key.pingtime !in AsMap(f)
    else
      Key.pingtime in AsMap(f) && Get(f, Key.pingtime).Num? &&
      var d := Get(f, Key.pingtime).d;
      d.Dec? && (d.negative ==> d.coeff == 0) && toFloat(d) == Finite(ping.value)
  }

  lemma PeerOfIff(toFloat: Decimal -> Float, v: Value, p: PeerSummary)
    ensures PeerOf(toFloat, v) == Some(p) <==> v.Obj? && PeerReads(toFloat, v.fields, p) && p.Valid()
  {
    hide AsMap, GoodText;
  }

  /** The list is the increasing arrangement of what at most 256 entries, all of them good, stand for. */
  ghost predicate PeersRead(lib: RpcLibrary, list: Value, t: seq<PeerSummary>) {
    list.Arr? && |list.items| <= 256 && Increasing(t) &&
    exists ps: seq<PeerSummary> :: multiset(ps) == multiset(t) && AllRead(lib.toFloat, list.items, ps)
  }

  lemma PeersOfIff(lib: RpcLibrary, list: Value, t: seq<PeerSummary>)
    ensures PeersOf(lib, list) == Ok(t) <==> PeersRead(lib, list, t)
  {
    hide PeerOf, Canonical;
    if list.Arr? {
      var parsed := Map(x => PeerOf(lib.toFloat, x), list.items);
      CanonicalIff(parsed, t);
      if AllSome(parsed) {
        AllReadIff(lib, list.items, Values(parsed));
      }
      if ps: seq<PeerSummary> :| multiset(ps) == multiset(t) && AllRead(lib.toFloat, list.items, ps) {
        AllReadIff(lib, list.items, ps);
        assert Values(parsed) == ps;
      }
    }
  }

  /** Each entry stands for the peer in its place. */
  predicate AllRead(toFloat: Decimal -> Float, items: seq<Value>, ps: seq<PeerSummary>) {
    |ps| == |items| &&
    forall i :: 0 <= i < |items| ==> items[i].Obj? && PeerReads(toFloat, items[i].fields, ps[i]) && ps[i].Valid()
  }

  lemma AllReadIff(lib: RpcLibrary, items: seq<Value>, ps: seq<PeerSummary>)
    requires |ps| == |items|
    ensures AllRead(lib.toFloat, items, ps) <==>
      forall i :: 0 <= i < |items| ==> PeerOf(lib.toFloat, items[i]) == Some(ps[i])
  {
    hide PeerOf, PeerReads;
    forall i | 0 <= i < |items|
      ensures PeerOf(lib.toFloat, items[i]) == Some(ps[i]) <==>
              items[i].Obj? && PeerReads(lib.toFloat, items[i].fields, ps[i]) && ps[i].Valid()
    {
      PeerOfIff(lib.toFloat, items[i], ps[i]);
    }
  }

  // ----- The four lookups -----

  /** A finite number of seconds, more than none and at most sixty. */
  predicate UpToSixty(t: TimeoutArg) { t.Seconds? && t.f.Finite? && 0.0 < t.f.r <= 60.0 }

  /** Every good `get_node_overview` sends two requests and returns an overview exactly when their answers stand for
      it. */
  lemma GetNodeOverviewIff(lib: RpcLibrary, env: Script, m: Moment, timeout: TimeoutArg, o: NodeOverview)
    ensures var t := Read(env, m);
      GetNodeOverview(lib, env, m, timeout).out == Ok(o) <==>
        UpToSixty(timeout) &&
        var deadline := t.now + timeout.f.r;
        var net := Send(lib, env, t, "getnetworkinfo", [], "bitheim-req-1", deadline);
        var chain := Send(lib, env, net.at, "getblockchaininfo", [], "bitheim-req-2", deadline);
        net.out.Ok? && chain.out.Ok? && net.out.value.Obj? && chain.out.value.Obj? &&
        OverviewReads(net.out.value.fields, chain.out.value.fields, o) && o.Valid()
  {
    hide Send, InTime, OverviewBy, OverviewReads;
    if UpToSixty(timeout) {
      OverviewByIff(lib, env, Read(env, m), Read(env, m).now + timeout.f.r, o);
    }
  }

  /** `get_block` needs exactly one of the two ways to name the block. */
  lemma GetBlockIff(lib: RpcLibrary, env: Script, m: Moment, hash: Option<string>, height: Value, timeout: TimeoutArg,
                    b: BlockSummary)
    ensures var t := Read(env, m);
      GetBlock(lib, env, m, hash, height, timeout).out == Ok(b) <==>
        UpToSixty(timeout) && (hash.Some? <==> height == Null) &&
        var deadline := t.now + timeout.f.r;
        var resolved := ResolveHash(lib, env, t, hash, height, deadline);
        var s := Send(lib, env, resolved.at, "getblock", [FromText(b.hash), Int(1)], "bitheim-req-block", deadline);
        resolved.out == Ok(Str(b.hash)) && b.Valid() && s.out.Ok? && s.out.value.Obj? &&
        BlockReads(s.out.value.fields, b)
  {
    hide Send, InTime, BlockBy, BlockReads, ResolveHash;
    if UpToSixty(timeout) {
      BlockByIff(lib, env, Read(env, m), hash, height, Read(env, m).now + timeout.f.r, b);
    }
  }

  lemma GetMempoolIff(lib: RpcLibrary, env: Script, m: Moment, timeout: TimeoutArg, p: MempoolSummary)
    ensures var t := Read(env, m);
      GetMempool(lib, env, m, timeout).out == Ok(p) <==>
        UpToSixty(timeout) &&
        var s := Send(lib, env, t, "getmempoolinfo", [], "bitheim-req-mempool", t.now + timeout.f.r);
        s.out.Ok? && s.out.value.Obj? && MempoolReads(s.out.value.fields, p) && p.Valid()
  {
    hide Send, InTime, MempoolOf, MempoolReads;
    if UpToSixty(timeout) {
      var t := Read(env, m);
      var s := Send(lib, env, t, "getmempoolinfo", [], "bitheim-req-mempool", t.now + timeout.f.r);
      if s.out.Ok? && s.out.value.Obj? {
        MempoolOfIff(s.out.value.fields, p);
      }
    }
  }

  lemma GetPeersIff(lib: RpcLibrary, env: Script, m: Moment, timeout: TimeoutArg, ps: seq<PeerSummary>)
    ensures var t := Read(env, m);
      GetPeers(lib, env, m, timeout).out == Ok(ps) <==>
        UpToSixty(timeout) &&
        var s := Send(lib, env, t, "getpeerinfo", [], "bitheim-req-peers", t.now + timeout.f.r);
        s.out.Ok? && PeersRead(lib, s.out.value, ps)
  {
    hide Send, InTime, PeersOf, PeersRead;
    if UpToSixty(timeout) {
      var t := Read(env, m);
      var s := Send(lib, env, t, "getpeerinfo", [], "bitheim-req-peers", t.now + timeout.f.r);
      if s.out.Ok? {
        PeersOfIff(lib, s.out.value, ps);
      }
    }
  }

  /** A bad timeout is refused before anything is read or sent. */
  lemma BadTimeoutRefused(lib: RpcLibrary, env: Script, m: Moment, hash: Option<string>, height: Value,
                          timeout: TimeoutArg)
    requires !UpToSixty(timeout)
    ensures var error := if timeout.HugeInt? then OtherException else RpcError;
      GetNodeOverview(lib, env, m, timeout) == Run(Err(error), m, []) &&
      GetBlock(lib, env, m, hash, height, timeout) == Run(Err(error), m, []) &&
      GetMempool(lib, env, m, timeout) == Run(Err(error), m, []) &&
      GetPeers(lib, env, m, timeout) == Run(Err(error), m, [])
  {
  }

  /** A good lookup that fails does so with the error of its request, or else because the answer is malformed. */
  lemma LookupsFail(lib: RpcLibrary, env: Script, m: Moment, timeout: TimeoutArg)
    requires UpToSixty(timeout)
    ensures var r := GetMempool(lib, env, m, timeout);
      var t := Read(env, m);
      var s := Send(lib, env, t, "getmempoolinfo", [], "bitheim-req-mempool", t.now + timeout.f.r);
      r.out.Err? ==> r.out.error == if s.out.Err? then s.out.error else RpcMalformedResponseError
    ensures var r := GetPeers(lib, env, m, timeout);
      var t := Read(env, m);
      var s := Send(lib, env, t, "getpeerinfo", [], "bitheim-req-peers", t.now + timeout.f.r);
      r.out.Err? ==> r.out.error == if s.out.Err? then s.out.error else RpcMalformedResponseError
  {
    hide Send, InTime, MakeMempool, Fees.Satoshis, AsMap, Canonical;
  }

  /** Likewise the block, by the first of its requests that fails. */
  lemma BlockFails(lib: RpcLibrary, env: Script, m: Moment, hash: Option<string>, height: Value, deadline: real)
    ensures var resolved := ResolveHash(lib, env, m, hash, height, deadline);
      var wanted := if resolved.out.Ok? && resolved.out.value.Str? then resolved.out.value.s else "";
      var s := Send(lib, env, resolved.at, "getblock", [FromText(wanted), Int(1)], "bitheim-req-block", deadline);
      var r := BlockBy(lib, env, m, hash, height, deadline);
      r.out.Err? ==> r.out.error == if resolved.out.Err? then resolved.out.error
                                    else if Digits64(wanted, "0123456789abcdef") && s.out.Err? then s.out.error
                                    else RpcMalformedResponseError
  {
    hide Send, ResolveHash, InTime, HexMatch, Digits64, BlockOf;
    var resolved := ResolveHash(lib, env, m, hash, height, deadline);
    if resolved.out.Ok? && resolved.out.value.Str? {
      var wanted := resolved.out.value.s;
      HashRules(wanted);
      var s := Send(lib, env, resolved.at, "getblock", [FromText(wanted), Int(1)], "bitheim-req-block", deadline);
      if s.out.Ok? && s.out.value.Obj? {
        BlockJudged(s.out.value.fields);
      }
    } else {
      EmptyIsNoHash();
    }
  }

  lemma EmptyIsNoHash()
    ensures !Digits64("", "0123456789abcdef")
  {
  }

  /** And the overview, where another version or chain and a lone surrogate have errors of their own. */
  lemma OverviewFails(lib: RpcLibrary, env: Script, m: Moment, deadline: real)
    ensures var net := Send(lib, env, m, "getnetworkinfo", [], "bitheim-req-1", deadline);
      var chain := Send(lib, env, net.at, "getblockchaininfo", [], "bitheim-req-2", deadline);
      var r := OverviewBy(lib, env, m, deadline);
      r.out.Err? ==>
        if net.out.Err? then r.out.error == net.out.error
        else if JudgeNetwork(net.out.value).Ok? && chain.out.Err? then r.out.error == chain.out.error
        else r.out.error in {RpcMalformedResponseError, RpcIncompatibleNodeError, ValueError}
  {
    hide Send, InTime, MakeOverview, AsMap, GoodText, HexMatch, Utf8Len;
  }

  // ----- Errors -----

  /** The members of a well-formed answer: UTF-8 text of a JSON object without repeated names, at most 32 deep, with
      the three members of an answer. */
  function AnswerMembers(lib: RpcLibrary, body: Bytes): Option<Fields> {
    var text := lib.decode(body);
    var v := if text.Some? then lib.loads(text.value) else None;
    if v.Some? && v.value.Obj? && UniqueDeep(v.value) && Depth(v.value) <= 32 && Has(v.value.fields, Key.id) &&
       Has(v.value.fields, Key.error) && Has(v.value.fields, Key.result)
    then Some(v.value.fields) else None
  }

  /** The answer to this request, with no result and this code in its error object. */
  predicate FailsWith(lib: RpcLibrary, body: Bytes, reqId: string, code: int) {
    var f := AnswerMembers(lib, body);
    f.Some? && Get(f.value, Key.id) == Value.Text(Str(reqId)) && Get(f.value, Key.result) == Null &&
    Get(f.value, Key.error).Obj? && Get(Get(f.value, Key.error).fields, Key.code) == Int(code)
  }

  /** Which error a body gives: code -5 means not found, any other code a protocol error, and everything that is
      neither such a failure nor a result is malformed. */
  lemma AnswerExact(lib: RpcLibrary, body: Bytes, reqId: string)
    ensures var r := ParseBody(lib, body, reqId);
      (r == Err(RpcResourceNotFoundError) <==> FailsWith(lib, body, reqId, -5)) &&
      (r == Err(RpcProtocolError) <==> exists code :: code != -5 && FailsWith(lib, body, reqId, code)) &&
      (r.Err? ==> r.error in {RpcResourceNotFoundError, RpcProtocolError, RpcMalformedResponseError})
  {
    hide CheckDepth, UniqueDeep, AsMap, Has, Depth;
    var text := lib.decode(body);
    if text.Some? {
      var v := lib.loads(text.value);
      if v.Some? && v.value.Obj? {
        AsMapKeys(v.value.fields);
        CheckDepthExact(v.value, 1, MAX_DEPTH);
        var err := Get(v.value.fields, Key.error);
        if err.Obj? && Get(err.fields, Key.code).Int? {
          assert FailsWith(lib, body, reqId, Get(err.fields, Key.code).i) ||
                 !FailsWith(lib, body, reqId, Get(err.fields, Key.code).i);
        }
      }
    }
  }

  /** What each way of opening leads to. */
  lemma OpenExact(lib: RpcLibrary, env: Script, m: Moment, reply: OpenReply, reqId: string, deadline: real)
    ensures var (r, e) := (AfterOpen(lib, env, m, reply, reqId, deadline), Envelope(lib, env, m, reqId, deadline));
      if reply.Opened? then r == e
      else if reply == HttpError(500) then
        r.at == e.at && r.events == e.events && r.out == Err(if e.out.Err? then e.out.error else RpcProtocolError)
      else
        r.at == m && r.events == [] && r.out.Err? &&
        (r.out.error == RpcAuthenticationError <==> reply == HttpError(401) || reply == HttpError(403)) &&
        (r.out.error == RpcTimeoutError <==> reply == OpenTimedOut) &&
        (r.out.error == OtherException <==> reply == OpenRaised) &&
        (r.out.error == RpcUnavailableError <==>
          reply == Redirected || reply == OpenFailed ||
          (reply.HttpError? && reply.status != 401 && reply.status != 403))
  {
    hide Envelope;
  }

  /** What happens before that: the refusals of a request, in their order. */
  lemma SendRefusals(lib: RpcLibrary, env: Script, m: Moment, rpc: string, params: seq<Value>, reqId: string,
                     deadline: real)
    ensures var r := Send(lib, env, m, rpc, params, reqId, deadline);
      var (t, c) := (Read(env, m), Read(env, Read(env, m)));
      var u := Read(env, c);
      var known := rpc == "getnetworkinfo" || rpc == "getblockchaininfo" || rpc == "getblockhash" ||
                   rpc == "getblock" || rpc == "getmempoolinfo" || rpc == "getpeerinfo";
      if !known then r == Run(Err(RpcError), m, [])
      else if t.now >= deadline then r == Run(Err(RpcTimeoutError), t, [])
      else if !env(t.step).cookie then r == Run(Err(RpcAuthenticationError), c, [])
      else if u.now >= deadline then r == Run(Err(RpcTimeoutError), u, [])
      else if exists p :: p in params && p.Int? && p.i >= 0 && |Cidr.Decimal(p.i)| > 4300 then
        r == Run(Err(RpcMalformedResponseError), u, [])
      else
        var done := After(u, env(u.step).lasts);
        var rest := AfterOpen(lib, env, done, env(u.step).open, reqId, deadline);
        r == Run(rest.out, rest.at, [Request(rpc, params, deadline - u.now, u.now, done.now)] + rest.events)
  {
    hide AfterOpen, InTime, Cidr.Decimal;
  }

  /** How the chunk loop ends, after so many bytes: by its last read, by the bytes it got, and by the clock. */
  predicate DrainTold(r: Run<Bytes, Event>, deadline: real, before: nat) {
    (r.out.Err? ==>
      r.out.error in {RpcTimeoutError, RpcUnavailableError, RpcResponseSizeExceededError, OtherException}) &&
    (r.out == Err(RpcUnavailableError) <==> LastRead(r.events, ReadFailed)) &&
    (r.out == Err(OtherException) <==> LastRead(r.events, ReadRaised)) &&
    (r.out == Err(RpcResponseSizeExceededError) ==> before + |Joined(r.events)| > 4194304) &&
    (r.out.Ok? || r.out == Err(RpcUnavailableError) ==> before + |Joined(r.events)| <= 4194304) &&
    (r.out == Err(RpcTimeoutError) ==> r.at.now >= deadline || LastRead(r.events, ReadTimedOut))
  }

  lemma DrainLater(e: Event, rest: Run<Bytes, Event>, deadline: real, before: nat)
    requires HasChunk(e) && DrainTold(rest, deadline, before + |e.reply.bytes|)
    ensures DrainTold(Run(rest.out, rest.at, [e] + rest.events), deadline, before)
  {
    hide LastRead;
    JoinedMore(e, rest.events);
    LastLater(e, rest.events);
  }

  lemma {:induction false} DrainClass(env: Script, m: Moment, deadline: real, got: Bytes)
    requires |got| <= MAX_RESPONSE
    ensures DrainTold(Drain(env, m, deadline, got), deadline, |got|)
    decreases MAX_RESPONSE - |got|
  {
    hide InTime, ReadOnce, DrainTold;
    var t := Read(env, m);
    var left := deadline - t.now;
    if left <= 0.0 {
      OutOfTime(t, deadline, |got|);
    } else {
      var one := ReadOnce(env, t, deadline, left);
      ReadClass(env, t, deadline, left);
      if one.out.Ok? && one.out.value != [] && |got| + |one.out.value| <= MAX_RESPONSE {
        DrainClass(env, one.at, deadline, got + one.out.value);
        var rest := Drain(env, one.at, deadline, got + one.out.value);
        DrainLater(one.events[0], rest, deadline, |got|);
        assert one.events == [one.events[0]];
      } else {
        LastOfDrain(one, deadline, got, Drain(env, m, deadline, got));
      }
    }
  }

  lemma OutOfTime(t: Moment, deadline: real, before: nat)
    requires t.now >= deadline
    ensures DrainTold(Run(Err(RpcTimeoutError), t, []), deadline, before)
  {
  }

  lemma LastOfDrain(one: Run<Bytes, Event>, deadline: real, got: Bytes, r: Run<Bytes, Event>)
    requires |got| <= MAX_RESPONSE && ReadTold(one, deadline) && r.at == one.at && r.events == one.events
    requires one.out.Ok? ==> one.out.value == [] || |got| + |one.out.value| > MAX_RESPONSE
    requires r.out == if one.out.Err? then one.out else if one.out.value == [] then Ok(got)
                      else Err(RpcResponseSizeExceededError)
    ensures DrainTold(r, deadline, |got|)
  {
    JoinedOne(one.events);
  }

  /** The last read was answered so. */
  predicate LastRead(es: seq<Event>, reply: ReadReply) {
    es != [] && es[|es| - 1].Reading? && es[|es| - 1].reply == reply
  }

  /** How one read ends. */
  predicate ReadTold(r: Run<Bytes, Event>, deadline: real) {
    |r.events| == 1 && r.events[0].Reading? &&
    (r.out.Err? ==> r.out.error in {RpcTimeoutError, RpcUnavailableError, OtherException}) &&
    (r.out == Err(RpcUnavailableError) <==> r.events[0].reply == ReadFailed) &&
    (r.out == Err(OtherException) <==> r.events[0].reply == ReadRaised) &&
    (r.out == Err(RpcTimeoutError) ==> r.at.now >= deadline || r.events[0].reply == ReadTimedOut) &&
    (r.out.Ok? ==> r.events[0].reply == Chunk(r.out.value))
  }

  lemma ReadClass(env: Script, t: Moment, deadline: real, left: real)
    requires 0.0 < left == deadline - t.now
    ensures ReadTold(ReadOnce(env, t, deadline, left), deadline)
  {
  }

  lemma JoinedOne(es: seq<Event>)
    requires |es| == 1
    ensures Joined(es) == if HasChunk(es[0]) then es[0].reply.bytes else []
  {
    assert es[1..] == [];
  }

  lemma JoinedMore(e: Event, rest: seq<Event>)
    requires HasChunk(e)
    ensures Joined([e] + rest) == e.reply.bytes + Joined(rest)
  {
    assert ([e] + rest)[1..] == rest;
  }

  lemma LastLater(e: Event, rest: seq<Event>)
    requires HasChunk(e)
    ensures LastRead([e] + rest, ReadFailed) <==> LastRead(rest, ReadFailed)
    ensures LastRead([e] + rest, ReadTimedOut) <==> LastRead(rest, ReadTimedOut)
    ensures LastRead([e] + rest, ReadRaised) <==> LastRead(rest, ReadRaised)
  {
    assert rest != [] ==> ([e] + rest)[|rest|] == rest[|rest| - 1];
  }
}
