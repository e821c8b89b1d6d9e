/** The observation records of `domain/node.py`: what their constructors accept and how they print. */
module Domain {
  import opened Outcome
  import opened Text
  import opened Json

  datatype LifecycleState = STOPPED | STARTING | HEALTHY | UNHEALTHY | INCOMPATIBLE | UNKNOWN

  const EXPECTED_VERSION := 310100
  const EXPECTED_CHAIN := "regtest"

  predicate IsNat(v: Value) { v.Int? && v.i >= 0 }

  predicate IsNatOrNone(v: Value) { v.Null? || IsNat(v) }

  /** The three-part test on every free text field: a `str`, between 1 and 512 bytes of
      UTF-8, all of it printable ASCII. Encoding a lone surrogate raises `UnicodeEncodeError`. */
  predicate GoodText(s: string) {
    0 < Utf8Len(s) <= 512 && Printable(s)
  }

  predicate IsGoodText(v: Value) { v.Text? && v.t.Str? && GoodText(v.t.s) }

  predicate IsStrictHex(v: Value) { v.Text? && v.t.Str? && StrictHex(v.t.s) }

  predicate IsHexMatch(v: Value) { v.Text? && v.t.Str? && HexMatch(v.t.s) }

  predicate IsHexMatchOrNone(v: Value) { v.Null? || IsHexMatch(v) }

  predicate IsText(v: Value, s: string) { v == Value.Text(Str(s)) }

  /** The value is a string that reads as the given word once in lower case. */
  predicate Spells(v: Value, word: string) { v.Text? && v.t.Str? && Lower(v.t.s) == word }

  function TextOf(v: Value): string
    requires v.Text? && v.t.Str?
  {
    v.t.s
  }

  function OptionalText(v: Value): Option<string>
    requires v.Null? || (v.Text? && v.t.Str?)
  {
    if v.Null? then None else Some(v.t.s)
  }

  function OptionalInt(v: Value): Option<int>
    requires v.Null? || v.Int?
  {
    if v.Null? then None else Some(v.i)
  }

  function FromText(s: string): Value { Value.Text(Str(s)) }

  function FromOptionalText(s: Option<string>): Value { if s.None? then Null else FromText(s.value) }

  function FromOptionalInt(n: Option<int>): Value { if n.None? then Null else Int(n.value) }

  // ----- NodeOverview -----

  datatype NodeOverview = NodeOverview(
    version: int, subversion: string, networkActive: bool, connections: int, chain: string,
    blocks: int, headers: int, bestBlockHash: string, medianTime: int,
    initialBlockDownload: bool, pruned: bool, chainwork: Option<string>)
  {
    predicate Valid() {
      version == EXPECTED_VERSION && GoodText(subversion) && connections >= 0 &&
      chain == EXPECTED_CHAIN && blocks >= 0 && headers >= 0 && StrictHex(bestBlockHash) &&
      medianTime >= 0 && (chainwork.Some? ==> StrictHex(chainwork.value))
    }

    /** `to_dict()` */
    function ToDict(): map<Key, Value> {
      map[
        Key.best_block_hash := FromText(bestBlockHash),
        Key.blocks := Int(blocks),
        Key.chain := FromText(chain),
        Key.chainwork := FromOptionalText(chainwork),
        Key.connections := Int(connections),
        Key.headers := Int(headers),
        Key.initial_block_download := Bool(initialBlockDownload),
        Key.median_time := Int(medianTime),
        Key.network_active := Bool(networkActive),
        Key.pruned := Bool(pruned),
        Key.subversion := FromText(subversion),
        Key.version := Int(version)]
    }
  }

  /** The arguments as the caller passes them, before `__post_init__` looks at their types. */
  datatype OverviewArgs = OverviewArgs(
    version: Value, subversion: Value, networkActive: Value, connections: Value, chain: Value,
    blocks: Value, headers: Value, bestBlockHash: Value, medianTime: Value,
    initialBlockDownload: Value, pruned: Value, chainwork: Value)

  /** `NodeOverview(...)`; `None` stands for `ValueError`. */
  function MakeOverview(a: OverviewArgs): (r: Option<NodeOverview>)
    ensures r.Some? ==> r.value.Valid()
  {
    if a.version == Int(EXPECTED_VERSION) && IsGoodText(a.subversion) && a.networkActive.Bool? &&
       IsNat(a.connections) && IsText(a.chain, EXPECTED_CHAIN) && IsNat(a.blocks) && IsNat(a.headers) &&
       IsStrictHex(a.bestBlockHash) && IsNat(a.medianTime) && a.initialBlockDownload.Bool? &&
       a.pruned.Bool? && (a.chainwork.Null? || IsStrictHex(a.chainwork))
    then Some(NodeOverview(
      a.version.i, TextOf(a.subversion), a.networkActive.b, a.connections.i, TextOf(a.chain),
      a.blocks.i, a.headers.i, TextOf(a.bestBlockHash), a.medianTime.i,
      a.initialBlockDownload.b, a.pruned.b, OptionalText(a.chainwork)))
    else None
  }

  // ----- BlockSummary -----

  datatype BlockSummary = BlockSummary(
    hash: string, height: int, confirmations: int, timestamp: int, transactionCount: int,
    size: int, weight: int, previousBlockHash: Option<string>, nextBlockHash: Option<string>)
  {
    predicate Valid() {
      HexMatch(hash) && height >= 0 && confirmations >= 0 && timestamp >= 0 && transactionCount >= 0 &&
      size >= 0 && weight >= 0 && (previousBlockHash.Some? ==> HexMatch(previousBlockHash.value)) &&
      (nextBlockHash.Some? ==> HexMatch(nextBlockHash.value))
    }

    function ToDict(): map<Key, Value> {
      map[
        Key.confirmations := Int(confirmations),
        Key.hash := FromText(hash),
        Key.height := Int(height),
        Key.next_block_hash := FromOptionalText(nextBlockHash),
        Key.previous_block_hash := FromOptionalText(previousBlockHash),
        Key.size := Int(size),
        Key.timestamp := Int(timestamp),
        Key.transaction_count := Int(transactionCount),
        Key.weight := Int(weight)]
    }
  }

  datatype BlockArgs = BlockArgs(
    hash: Value, height: Value, confirmations: Value, timestamp: Value, transactionCount: Value,
    size: Value, weight: Value, previousBlockHash: Value, nextBlockHash: Value)

  function MakeBlock(a: BlockArgs): (r: Option<BlockSummary>)
    ensures r.Some? ==> r.value.Valid()
  {
    if IsHexMatch(a.hash) && IsNat(a.height) && IsNat(a.confirmations) && IsNat(a.timestamp) &&
       IsNat(a.transactionCount) && IsNat(a.size) && IsNat(a.weight) &&
       IsHexMatchOrNone(a.previousBlockHash) && IsHexMatchOrNone(a.nextBlockHash)
    then Some(BlockSummary(
      TextOf(a.hash), a.height.i, a.confirmations.i, a.timestamp.i, a.transactionCount.i,
      a.size.i, a.weight.i, OptionalText(a.previousBlockHash), OptionalText(a.nextBlockHash)))
    else None
  }

  // ----- MempoolSummary -----

  datatype MempoolSummary = MempoolSummary(
    loaded: bool, transactionCount: int, serializedBytes: int, dynamicMemoryUsage: int,
    maxMemory: int, totalFeesSatoshis: int)
  {
    predicate Valid() {
      transactionCount >= 0 && serializedBytes >= 0 && dynamicMemoryUsage >= 0 &&
      maxMemory >= 0 && totalFeesSatoshis >= 0
    }

    function ToDict(): map<Key, Value> {
      map[
        Key.dynamic_memory_usage := Int(dynamicMemoryUsage),
        Key.loaded := Bool(loaded),
        Key.max_memory := Int(maxMemory),
        Key.serialized_bytes := Int(serializedBytes),
        Key.total_fees_satoshis := Int(totalFeesSatoshis),
        Key.transaction_count := Int(transactionCount)]
    }
  }

  datatype MempoolArgs = MempoolArgs(
    loaded: Value, transactionCount: Value, serializedBytes: Value, dynamicMemoryUsage: Value,
    maxMemory: Value, totalFeesSatoshis: Value)

  function MakeMempool(a: MempoolArgs): (r: Option<MempoolSummary>)
    ensures r.Some? ==> r.value.Valid()
  {
    if a.loaded.Bool? && IsNat(a.transactionCount) && IsNat(a.serializedBytes) &&
       IsNat(a.dynamicMemoryUsage) && IsNat(a.maxMemory) && IsNat(a.totalFeesSatoshis)
    then Some(MempoolSummary(
      a.loaded.b, a.transactionCount.i, a.serializedBytes.i, a.dynamicMemoryUsage.i,
      a.maxMemory.i, a.totalFeesSatoshis.i))
    else None
  }

  // ----- PeerSummary -----

  datatype PeerSummary = PeerSummary(
    peerId: int, endpoint: string, network: string, inbound: bool, connectionType: string,
    protocolVersion: int, subversion: string, syncedHeaders: Option<int>,
    syncedBlocks: Option<int>, pingTimeSeconds: Option<real>)
  {
    predicate Valid() {
      peerId >= 0 && GoodText(endpoint) && GoodText(network) && GoodText(connectionType) &&
      protocolVersion >= 0 && GoodText(subversion) && (syncedHeaders.Some? ==> syncedHeaders.value >= 0) &&
      (syncedBlocks.Some? ==> syncedBlocks.value >= 0) && (pingTimeSeconds.Some? ==> pingTimeSeconds.value >= 0.0)
    }

    function ToDict(): map<Key, Value> {
      map[
        Key.connection_type := FromText(connectionType),
        Key.endpoint := FromText(endpoint),
        Key.inbound := Bool(inbound),
        Key.network := FromText(network),
        Key.peer_id := Int(peerId),
        Key.ping_time_seconds := FromPing(pingTimeSeconds),
        Key.protocol_version := Int(protocolVersion),
        Key.subversion := FromText(subversion),
        Key.synced_blocks := FromOptionalInt(syncedBlocks),
        Key.synced_headers := FromOptionalInt(syncedHeaders)]
    }
  }

  function FromPing(p: Option<real>): Value { if p.None? then Null else Flt(Finite(p.value)) }

  predicate IsPing(v: Value) { v.Null? || (v.Flt? && v.f.Finite? && v.f.r >= 0.0) }

  datatype PeerArgs = PeerArgs(
    peerId: Value, endpoint: Value, network: Value, inbound: Value, connectionType: Value,
    protocolVersion: Value, subversion: Value, syncedHeaders: Value, syncedBlocks: Value,
    pingTimeSeconds: Value)

  function MakePeer(a: PeerArgs): (r: Option<PeerSummary>)
    ensures r.Some? ==> r.value.Valid()
  {
    if IsNat(a.peerId) && IsGoodText(a.endpoint) && IsGoodText(a.network) && IsGoodText(a.connectionType) &&
       IsGoodText(a.subversion) && a.inbound.Bool? && IsNat(a.protocolVersion) &&
       IsNatOrNone(a.syncedHeaders) && IsNatOrNone(a.syncedBlocks) && IsPing(a.pingTimeSeconds)
    then Some(PeerSummary(
      a.peerId.i, TextOf(a.endpoint), TextOf(a.network), a.inbound.b, TextOf(a.connectionType),
      a.protocolVersion.i, TextOf(a.subversion), OptionalInt(a.syncedHeaders), OptionalInt(a.syncedBlocks),
      if a.pingTimeSeconds.Null? then None else Some(a.pingTimeSeconds.f.r)))
    else None
  }
}
