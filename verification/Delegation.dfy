/** Delegated inspection as a printer and a parser: what the container prints with `to_dict`
    and what the host adapter rebuilds from it. */
module Delegation {
  import opened Outcome
  import opened Text
  import opened Json
  import opened Domain
  import opened Process
  import ErrorEnvelope
  import opened Peers

  const MAX_STDOUT := 65536
  const MAX_DEPTH := 32

  /** The tail of `_run_delegated_inspection`, once the process has ended. */
  function Payload(loads: Loads, reply: Reply): Result<Fields> {
    match reply
    case TimedOut => Err(RpcTimeoutError)
    case OsFailure => Err(RpcError)
    case Raised => Err(OtherException)
    case Exited(code, out, err) =>
      if code != 0 then Err(ErrorEnvelope.HostFailure(loads, err))
      else if Utf8Len(out) > MAX_STDOUT then Err(RpcResponseSizeExceededError)
      else
        var v := LoadsUnique(loads, Strip(out));
        if v.None? || !v.value.Obj? || !CheckDepth(v.value, 1, MAX_DEPTH) then Err(RpcMalformedResponseError)
        else Ok(v.value.fields)
  }

  // ----- inspect_node -----

  predicate IsAnyHexMatch(v: Value) { v.Text? && v.t.Str? && AnyHexMatch(v.t.s) }

  function OverviewMembers(f: Fields): OverviewArgs {
    OverviewArgs(Get(f, Key.version), Get(f, Key.subversion), Get(f, Key.network_active), Get(f, Key.connections),
                 Get(f, Key.chain), Get(f, Key.blocks), Get(f, Key.headers), Get(f, Key.best_block_hash),
                 Get(f, Key.median_time), Get(f, Key.initial_block_download), Get(f, Key.pruned), Get(f, Key.chainwork))
  }

  /** The host's own field checks, which are laxer than the constructor's about the two hashes. */
  predicate HostAccepts(a: OverviewArgs) {
    a.version.Int? && IsGoodText(a.subversion) && a.networkActive.Bool? && IsNat(a.connections) && a.chain.Text? &&
    IsNat(a.blocks) && IsNat(a.headers) && IsAnyHexMatch(a.bestBlockHash) && IsNat(a.medianTime) &&
    a.initialBlockDownload.Bool? && a.pruned.Bool? && (a.chainwork.Null? || IsAnyHexMatch(a.chainwork))
  }

  /** Encoding this subversion raises `UnicodeEncodeError`, outside any `try`. */
  predicate EncodingFails(a: OverviewArgs) {
    a.version.Int? && a.subversion.Text? && a.subversion.t.Lone?
  }

  function CheckedOverview(a: OverviewArgs): Result<NodeOverview> {
    if EncodingFails(a) then Err(ValueError)
    else if !HostAccepts(a) then Err(RpcMalformedResponseError)
    else if a.version != Int(EXPECTED_VERSION) || !IsText(a.chain, EXPECTED_CHAIN) then Err(RpcIncompatibleNodeError)
    else
      var o := MakeOverview(a);
      if o.Some? then Ok(o.value) else Err(ValueError)
  }

  function HostOverview(f: Fields): Result<NodeOverview> { CheckedOverview(OverviewMembers(f)) }

  // ----- inspect_block, inspect_mempool -----

  function BlockMembers(f: Fields): BlockArgs {
    BlockArgs(Get(f, Key.hash), Get(f, Key.height), Get(f, Key.confirmations), Get(f, Key.timestamp),
              Get(f, Key.transaction_count), Get(f, Key.size), Get(f, Key.weight),
              Get(f, Key.previous_block_hash), Get(f, Key.next_block_hash))
  }

  function HostBlock(f: Fields): Result<BlockSummary> {
    var b := MakeBlock(BlockMembers(f));
    if b.Some? then Ok(b.value) else Err(RpcMalformedResponseError)
  }

  function MempoolMembers(f: Fields): MempoolArgs {
    MempoolArgs(Get(f, Key.loaded), Get(f, Key.transaction_count), Get(f, Key.serialized_bytes),
                Get(f, Key.dynamic_memory_usage), Get(f, Key.max_memory), Get(f, Key.total_fees_satoshis))
  }

  function HostMempool(f: Fields): Result<MempoolSummary> {
    var m := MakeMempool(MempoolMembers(f));
    if m.Some? then Ok(m.value) else Err(RpcMalformedResponseError)
  }

  // ----- inspect_peers -----

  function PeerMembers(f: Fields): PeerArgs {
    PeerArgs(Get(f, Key.peer_id), Get(f, Key.endpoint), Get(f, Key.network), Get(f, Key.inbound),
             Get(f, Key.connection_type), Get(f, Key.protocol_version), Get(f, Key.subversion),
             Get(f, Key.synced_headers), Get(f, Key.synced_blocks), Get(f, Key.ping_time_seconds))
  }

  function HostPeer(v: Value): Option<PeerSummary> {
    if v.Obj? then MakePeer(PeerMembers(v.fields)) else None
  }

  function HostPeers(f: Fields): Result<seq<PeerSummary>> {
    var list := Get(f, Key.peers);
    if !list.Arr? then Err(RpcMalformedResponseError) else
      var peers := Canonical(Map(HostPeer, list.items));
      if peers.Some? then Ok(peers.value) else Err(RpcMalformedResponseError)
  }

  /** `_parse_peers`: one pass that parses, refuses repeats and collects, then a sort. */
  method ParsePeers(f: Fields) returns (r: Result<seq<PeerSummary>>)
    ensures r == HostPeers(f)
  {
    var list := Get(f, Key.peers);
    if !list.Arr? || |list.items| > 256 {
      return Err(RpcMalformedResponseError);
    }
    var parsed: seq<PeerSummary>, ids: set<int> := [], {};
    ghost var all := Map(HostPeer, list.items);
    for n := 0 to |list.items|
      invariant |parsed| == n && forall i :: 0 <= i < n ==> all[i] == Some(parsed[i])
      invariant DistinctIds(parsed)
      invariant forall id :: id in ids <==> exists i :: 0 <= i < n && parsed[i].peerId == id
    {
      var peer := HostPeer(list.items[n]);
      if peer.None? {
        assert !AllSome(all);
        return Err(RpcMalformedResponseError);
      }
      if peer.value.peerId in ids {
        RepeatRefused(all, n);
        return Err(RpcMalformedResponseError);
      }
      ids := ids + {peer.value.peerId};
      parsed := parsed + [peer.value];
    }
    assert Values(all) == parsed;
    return Ok(SortById(parsed));
  }

  // ----- Round trips -----

  /** The process ended well, printed text the library reads as `v`, and stayed in the size bound. */
  predicate Printed(loads: Loads, reply: Reply, v: Value) {
    reply.Exited? && reply.code == 0 && Utf8Len(reply.out) <= MAX_STDOUT && loads(Strip(reply.out)) == Some(v)
  }

  predicate AllScalar(f: Fields) {
    forall p :: p in f ==> IsScalar(p.value)
  }

  lemma ScalarMembers(f: Fields)
    requires DistinctKeys(f) && forall k :: k in AsMap(f) ==> IsScalar(AsMap(f)[k])
    ensures AllScalar(f)
  {
    forall p | p in f ensures IsScalar(p.value) {
      var i :| 0 <= i < |f| && f[i] == p;
      GetAt(f, i, p.key);
    }
  }

  lemma ScalarsAreShallow(f: Fields)
    requires AllScalar(f) && DistinctKeys(f)
    ensures UniqueDeep(Obj(f)) && Depth(Obj(f)) <= 2 && CheckDepth(Obj(f), 1, MAX_DEPTH)
  {
    forall p | p in f ensures UniqueDeep(p.value) && Depth(p.value) == 1 {
    }
    DepthFieldsLeq(f, 1);
    CheckDepthExact(Obj(f), 1, MAX_DEPTH);
  }

  lemma PayloadOfScalars(loads: Loads, reply: Reply, v: Value)
    requires Printed(loads, reply, v) && v.Obj? && DistinctKeys(v.fields) && AllScalar(v.fields)
    ensures Payload(loads, reply) == Ok(v.fields)
  {
    ScalarsAreShallow(v.fields);
  }

  function OverviewAsArgs(o: NodeOverview): OverviewArgs {
    OverviewArgs(Int(o.version), FromText(o.subversion), Bool(o.networkActive), Int(o.connections), FromText(o.chain),
      Int(o.blocks), Int(o.headers), FromText(o.bestBlockHash), Int(o.medianTime),
      Bool(o.initialBlockDownload), Bool(o.pruned), FromOptionalText(o.chainwork))
  }

  lemma OverviewGets(o: NodeOverview, f: Fields)
    requires AsMap(f) == o.ToDict()
    ensures OverviewMembers(f) == OverviewAsArgs(o)
  {
    hide AsMap;
  }

  lemma OverviewRead(o: NodeOverview, v: Value)
    requires Writes(v, o.ToDict())
    ensures OverviewMembers(v.fields) == OverviewAsArgs(o) && AllScalar(v.fields)
  {
    hide AsMap, DistinctKeys, AllScalar, OverviewMembers, OverviewAsArgs;
    OverviewGets(o, v.fields);
    ScalarMembers(v.fields);
  }

  lemma StrictHexMatches(s: string)
    ensures StrictHex(s) <==> HexMatch(s) && |s| == 64
    ensures HexMatch(s) ==> AnyHexMatch(s)
  {
  }

  lemma CheckedAgain(o: NodeOverview)
    requires o.Valid()
    ensures CheckedOverview(OverviewAsArgs(o)) == Ok(o)
  {
    StrictHexMatches(o.bestBlockHash);
    if o.chainwork.Some? {
      StrictHexMatches(o.chainwork.value);
    }
  }

  /** A valid overview printed by the container is rebuilt unchanged on the host. */
  lemma OverviewRoundTrip(loads: Loads, reply: Reply, o: NodeOverview, v: Value)
    requires o.Valid() && Writes(v, o.ToDict()) && Printed(loads, reply, v)
    ensures Payload(loads, reply).Ok? && HostOverview(Payload(loads, reply).value) == Ok(o)
  {
    hide AsMap, DistinctKeys, AllScalar, UniqueDeep;
    OverviewRead(o, v);
    PayloadOfScalars(loads, reply, v);
    CheckedAgain(o);
  }

  function BlockAsArgs(b: BlockSummary): BlockArgs {
    BlockArgs(FromText(b.hash), Int(b.height), Int(b.confirmations), Int(b.timestamp), Int(b.transactionCount),
      Int(b.size), Int(b.weight), FromOptionalText(b.previousBlockHash), FromOptionalText(b.nextBlockHash))
  }

  lemma BlockGets(b: BlockSummary, f: Fields)
    requires AsMap(f) == b.ToDict()
    ensures BlockMembers(f) == BlockAsArgs(b)
  {
    hide AsMap;
  }

  lemma BlockRead(b: BlockSummary, v: Value)
    requires Writes(v, b.ToDict())
    ensures BlockMembers(v.fields) == BlockAsArgs(b) && AllScalar(v.fields)
  {
    hide AsMap, DistinctKeys, AllScalar, BlockMembers, BlockAsArgs;
    BlockGets(b, v.fields);
    ScalarMembers(v.fields);
  }

  lemma BlockAgain(b: BlockSummary)
    requires b.Valid()
    ensures MakeBlock(BlockAsArgs(b)) == Some(b)
  {
  }

  lemma BlockRoundTrip(loads: Loads, reply: Reply, b: BlockSummary, v: Value)
    requires b.Valid() && Writes(v, b.ToDict()) && Printed(loads, reply, v)
    ensures Payload(loads, reply).Ok? && HostBlock(Payload(loads, reply).value) == Ok(b)
  {
    hide AsMap, DistinctKeys, AllScalar, UniqueDeep;
    BlockRead(b, v);
    BlockAgain(b);
    PayloadOfScalars(loads, reply, v);
  }

  function MempoolAsArgs(m: MempoolSummary): MempoolArgs {
    MempoolArgs(Bool(m.loaded), Int(m.transactionCount), Int(m.serializedBytes), Int(m.dynamicMemoryUsage),
      Int(m.maxMemory), Int(m.totalFeesSatoshis))
  }

  lemma MempoolGets(m: MempoolSummary, f: Fields)
    requires AsMap(f) == m.ToDict()
    ensures MempoolMembers(f) == MempoolAsArgs(m)
  {
    hide AsMap;
  }

  lemma MempoolRead(m: MempoolSummary, v: Value)
    requires Writes(v, m.ToDict())
    ensures MempoolMembers(v.fields) == MempoolAsArgs(m) && AllScalar(v.fields)
  {
    hide AsMap, DistinctKeys, AllScalar, MempoolMembers, MempoolAsArgs;
    MempoolGets(m, v.fields);
    ScalarMembers(v.fields);
  }

  lemma MempoolAgain(m: MempoolSummary)
    requires m.Valid()
    ensures MakeMempool(MempoolAsArgs(m)) == Some(m)
  {
  }

  lemma MempoolRoundTrip(loads: Loads, reply: Reply, m: MempoolSummary, v: Value)
    requires m.Valid() && Writes(v, m.ToDict()) && Printed(loads, reply, v)
    ensures Payload(loads, reply).Ok? && HostMempool(Payload(loads, reply).value) == Ok(m)
  {
    hide AsMap, DistinctKeys, AllScalar, UniqueDeep;
    MempoolRead(m, v);
    MempoolAgain(m);
    PayloadOfScalars(loads, reply, v);
  }

  function PeerAsArgs(p: PeerSummary): PeerArgs {
    PeerArgs(Int(p.peerId), FromText(p.endpoint), FromText(p.network), Bool(p.inbound), FromText(p.connectionType),
      Int(p.protocolVersion), FromText(p.subversion), FromOptionalInt(p.syncedHeaders),
      FromOptionalInt(p.syncedBlocks), FromPing(p.pingTimeSeconds))
  }

  lemma PeerGets(p: PeerSummary, f: Fields)
    requires AsMap(f) == p.ToDict()
    ensures PeerMembers(f) == PeerAsArgs(p)
  {
    hide AsMap;
  }

  lemma PeerRead(p: PeerSummary, v: Value)
    requires Writes(v, p.ToDict())
    ensures PeerMembers(v.fields) == PeerAsArgs(p) && AllScalar(v.fields)
  {
    hide AsMap, DistinctKeys, AllScalar, PeerMembers, PeerAsArgs;
    PeerGets(p, v.fields);
    ScalarMembers(v.fields);
  }

  lemma PeerRoundTrip(p: PeerSummary, v: Value)
    requires p.Valid() && Writes(v, p.ToDict())
    ensures HostPeer(v) == Some(p) && UniqueDeep(v) && Depth(v) <= 2
  {
    hide AsMap, DistinctKeys, AllScalar, UniqueDeep;
    PeerRead(p, v);
    ScalarsAreShallow(v.fields);
  }

  /** `{"peers": [p.to_dict() for p in peers]}` */
  function PeersJson(items: seq<Value>): Value {
    Obj([Member(Key.peers, Arr(items))])
  }

  predicate PrintedPeers(peers: seq<PeerSummary>, items: seq<Value>) {
    |items| == |peers| && forall i :: 0 <= i < |peers| ==> Writes(items[i], peers[i].ToDict())
  }

  lemma ListDepth(items: seq<Value>)
    requires forall x :: x in items ==> UniqueDeep(x) && Depth(x) <= 2
    ensures UniqueDeep(PeersJson(items)) && CheckDepth(PeersJson(items), 1, MAX_DEPTH)
    ensures Get(PeersJson(items).fields, Key.peers) == Arr(items)
  {
    var v := PeersJson(items);
    DepthItemsLeq(items, 2);
    assert MemberDepth(v.fields[0]) <= 3;
    assert DepthFields(v.fields) == Max(MemberDepth(v.fields[0]), DepthFields(v.fields[1..]));
    CheckDepthExact(v, 1, MAX_DEPTH);
    GetAt(v.fields, 0, Key.peers);
  }

  lemma EachPeerRoundTrip(peers: seq<PeerSummary>, items: seq<Value>)
    requires (forall p :: p in peers ==> p.Valid()) && PrintedPeers(peers, items)
    ensures forall i :: 0 <= i < |peers| ==> HostPeer(items[i]) == Some(peers[i])
    ensures forall x :: x in items ==> UniqueDeep(x) && Depth(x) <= 2
  {
    forall i | 0 <= i < |peers|
      ensures HostPeer(items[i]) == Some(peers[i]) && UniqueDeep(items[i]) && Depth(items[i]) <= 2
    {
      assert peers[i] in peers;
      PeerRoundTrip(peers[i], items[i]);
    }
  }

  lemma PayloadOfList(loads: Loads, reply: Reply, items: seq<Value>)
    requires forall x :: x in items ==> UniqueDeep(x) && Depth(x) <= 2
    requires Printed(loads, reply, PeersJson(items))
    ensures Payload(loads, reply) == Ok(PeersJson(items).fields)
  {
    ListDepth(items);
  }

  /** Any canonical list of valid peers comes back identical when its printing fits the size bound. */
  lemma PeersRoundTrip(loads: Loads, reply: Reply, peers: seq<PeerSummary>, items: seq<Value>)
    requires forall p :: p in peers ==> p.Valid()
    requires Increasing(peers) && |peers| <= 256
    requires PrintedPeers(peers, items) && Printed(loads, reply, PeersJson(items))
    ensures Payload(loads, reply).Ok? && HostPeers(Payload(loads, reply).value) == Ok(peers)
  {
    EachPeerRoundTrip(peers, items);
    PayloadOfList(loads, reply, items);
    ListDepth(items);
    CanonicalFixed(peers, Map(HostPeer, items));
  }

  // ----- What any payload at all can lead to -----

  /** Which replies let an exception outside `RpcError` out of the host's node inspection:
      exactly those where the subversion holds a lone surrogate, or where everything passes
      the host's checks but a hash is upper-case or ends in a newline. */
  predicate HostEscapes(f: Fields) {
    var a := OverviewMembers(f);
    EncodingFails(a) ||
    (HostAccepts(a) && a.version == Int(EXPECTED_VERSION) && IsText(a.chain, EXPECTED_CHAIN) &&
     !(StrictHex(a.bestBlockHash.t.s) && (a.chainwork.Text? ==> StrictHex(a.chainwork.t.s))))
  }

  lemma OverviewTotal(f: Fields)
    ensures HostEscapes(f) <==> HostOverview(f) == Err(ValueError)
    ensures !HostEscapes(f) ==>
      (HostOverview(f).Ok? && HostOverview(f).value.Valid()) ||
      (HostOverview(f).Err? && HostOverview(f).error.IsRpc())
  {
  }

  /** For blocks, mempool and peers every payload gives a valid object or an `RpcError`. */
  lemma OthersTotal(f: Fields)
    ensures (HostBlock(f).Ok? && HostBlock(f).value.Valid()) || HostBlock(f) == Err(RpcMalformedResponseError)
    ensures (HostMempool(f).Ok? && HostMempool(f).value.Valid()) || HostMempool(f) == Err(RpcMalformedResponseError)
    ensures HostPeers(f) == Err(RpcMalformedResponseError) ||
      (HostPeers(f).Ok? && Increasing(HostPeers(f).value) && |HostPeers(f).value| <= 256 &&
       forall p :: p in HostPeers(f).value ==> p.Valid())
  {
    var list := Get(f, Key.peers);
    if list.Arr? && HostPeers(f).Ok? {
      var ps := Map(HostPeer, list.items);
      CanonicalSound(ps);
      forall p | p in HostPeers(f).value ensures p.Valid() {
        assert p in multiset(Values(ps));
        var i :| 0 <= i < |ps| && Values(ps)[i] == p;
        assert HostPeer(list.items[i]) == Some(p);
      }
    }
  }

  /** A payload whose only fault is an upper-case block hash escapes as a plain `ValueError`. */
  lemma UpperCaseHashEscapes(o: NodeOverview, hash: string, v: Value)
    requires o.Valid() && AnyHexMatch(hash) && !StrictHex(hash) && Writes(v, o.(bestBlockHash := hash).ToDict())
    ensures HostOverview(v.fields) == Err(ValueError)
  {
    hide AsMap, DistinctKeys, AllScalar, UniqueDeep;
    OverviewRead(o.(bestBlockHash := hash), v);
    if o.chainwork.Some? {
      StrictHexMatches(o.chainwork.value);
    }
  }

  /** Facts with the right version and a subversion that UTF-8 cannot encode. */
  function SurrogateFacts(escaped: string): Fields {
    [Member(Key.version, Int(EXPECTED_VERSION))] + [Member(Key.subversion, Value.Text(Lone(escaped)))]
  }

  lemma SurrogateGets(escaped: string)
    ensures var f := SurrogateFacts(escaped);
      DistinctKeys(f) && Get(f, Key.version) == Int(EXPECTED_VERSION) &&
      Get(f, Key.subversion) == Value.Text(Lone(escaped))
  {
    hide AsMap, DistinctKeys;
    var f := SurrogateFacts(escaped);
    AsMapEmpty();
    AsMapAppend([], f[0]);
    assert [] + [f[0]] == [f[0]];
    AsMapAppend([f[0]], f[1]);
  }

  /** Such a payload escapes in the same way. */
  lemma SurrogateEscapes(escaped: string)
    ensures HostOverview(SurrogateFacts(escaped)) == Err(ValueError)
  {
    hide AsMap, DistinctKeys, SurrogateFacts;
    SurrogateGets(escaped);
  }

  /** Output over the bound is refused whatever it says. */
  lemma OversizeRefused(loads: Loads, out: string, err: string)
    requires Utf8Len(out) > MAX_STDOUT
    ensures Payload(loads, Exited(0, out, err)) == Err(RpcResponseSizeExceededError)
  {
  }
}
