/** What the host makes of the container's answers, member by member and error by error, and what the fields of
    the observation records may hold, character by character. */
module HostReading {
  import opened Outcome
  import opened Text
  import opened Json
  import opened Domain
  import opened Process
  import opened Peers
  import opened Delegation
  import ErrorEnvelope

  // ----- Fields -----

  /** Sixty-four of these digits, alone or before one final newline. */
  predicate Digits64(s: string, digits: string) {
    (|s| == 64 || (|s| == 65 && s[64] == '\n')) && forall i :: 0 <= i < 64 ==> s[i] in digits
  }

  lemma LowerHexIff(c: char)
    ensures LowerHex(c) <==> c in "0123456789abcdef"
  {
    var digits := "0123456789abcdef";
    if '0' <= c <= '9' {
      assert digits[c as int - '0' as int] == c;
    } else if 'a' <= c <= 'f' {
      assert digits[10 + c as int - 'a' as int] == c;
    }
  }

  lemma AnyHexIff(c: char)
    ensures AnyHex(c) <==> c in "0123456789abcdefABCDEF"
  {
    var digits := "0123456789abcdefABCDEF";
    LowerHexIff(c);
    if 'A' <= c <= 'F' {
      assert digits[16 + c as int - 'A' as int] == c;
    }
    assert digits == "0123456789abcdef" + "ABCDEF";
  }

  /** The three readings of a hash. */
  lemma HashRules(s: string)
    ensures HexMatch(s) <==> Digits64(s, "0123456789abcdef")
    ensures AnyHexMatch(s) <==> Digits64(s, "0123456789abcdefABCDEF")
    ensures StrictHex(s) <==> |s| == 64 && Digits64(s, "0123456789abcdef")
  {
    hide LowerHex, AnyHex;
    forall i | 0 <= i < 64 && i < |s|
      ensures LowerHex(s[i]) <==> s[i] in "0123456789abcdef"
      ensures AnyHex(s[i]) <==> s[i] in "0123456789abcdefABCDEF"
    {
      LowerHexIff(s[i]);
      AnyHexIff(s[i]);
    }
  }

  /** Free text: one to 512 characters of printable ASCII. */
  lemma TextRule(s: string)
    ensures GoodText(s) <==> 1 <= |s| <= 512 && forall i :: 0 <= i < |s| ==> 32 <= s[i] as int <= 126
  {
    if Printable(s) {
      PrintableUtf8(s);
    }
  }

  /** What each record may hold. */
  lemma RecordRules(o: NodeOverview, b: BlockSummary, p: PeerSummary)
    ensures o.Valid() <==>
      o.version == 310100 && GoodText(o.subversion) && 0 <= o.connections && o.chain == "regtest" && 0 <= o.blocks &&
      0 <= o.headers && StrictHex(o.bestBlockHash) && 0 <= o.medianTime &&
      (o.chainwork == None || StrictHex(o.chainwork.value))
    ensures b.Valid() <==>
      HexMatch(b.hash) && 0 <= b.height && 0 <= b.confirmations && 0 <= b.timestamp && 0 <= b.transactionCount &&
      0 <= b.size && 0 <= b.weight && (forall h :: h in [b.previousBlockHash, b.nextBlockHash] ==> HashOrNone(h))
    ensures p.Valid() <==>
      0 <= p.peerId && 0 <= p.protocolVersion && NatOrNone(p.syncedHeaders) && NatOrNone(p.syncedBlocks) &&
      (p.pingTimeSeconds == None || 0.0 <= p.pingTimeSeconds.value) &&
      (forall t :: t in [p.endpoint, p.network, p.connectionType, p.subversion] ==> GoodText(t))
  {
    hide GoodText, HexMatch, StrictHex;
    var (hashes, texts) :=
      ([b.previousBlockHash, b.nextBlockHash], [p.endpoint, p.network, p.connectionType, p.subversion]);
    assert hashes[0] in hashes && hashes[1] in hashes;
    assert texts[0] in texts && texts[1] in texts && texts[2] in texts && texts[3] in texts;
  }

  predicate HashOrNone(h: Option<string>) { h == None || HexMatch(h.value) }

  predicate NatOrNone(n: Option<int>) { n == None || 0 <= n.value }

  // ----- The payload -----

  /** The delegated command ended well, with at most 65536 bytes of output: a JSON object without repeated names, at
      most 32 deep. */
  function PayloadMembers(loads: Loads, reply: Reply): Option<Fields> {
    if reply.Exited? && reply.code == 0 && Utf8Len(reply.out) <= 65536 then
      var v := loads(Strip(reply.out));
      if v.Some? && v.value.Obj? && UniqueDeep(v.value) && Depth(v.value) <= 32 then Some(v.value.fields) else None
    else None
  }

  /** What every ended command is taken for. */
  lemma PayloadExact(loads: Loads, reply: Reply)
    ensures Payload(loads, reply) ==
      match reply
      case TimedOut => Err(RpcTimeoutError)
      case OsFailure => Err(RpcError)
      case Raised => Err(OtherException)
      case Exited(code, out, err) =>
        if PayloadMembers(loads, reply).Some? then Ok(PayloadMembers(loads, reply).value)
        else if code != 0 then Err(ErrorEnvelope.HostFailure(loads, err))
        else if Utf8Len(out) > 65536 then Err(RpcResponseSizeExceededError)
        else Err(RpcMalformedResponseError)
  {
    hide Strip, Utf8Len, CheckDepth, UniqueDeep, Depth, ErrorEnvelope.HostFailure;
    if reply.Exited? {
      var v := loads(Strip(reply.out));
      if v.Some? {
        CheckDepthExact(v.value, 1, MAX_DEPTH);
      }
    }
  }

  // ----- inspect_node -----

  /** The members of a payload that stands for the overview. */
  predicate OverviewShown(f: Fields, o: NodeOverview) {
    Get(f, Key.version) == Int(o.version) && Get(f, Key.subversion) == FromText(o.subversion) &&
    Get(f, Key.network_active) == Bool(o.networkActive) && Get(f, Key.connections) == Int(o.connections) &&
    Get(f, Key.chain) == FromText(o.chain) && Get(f, Key.blocks) == Int(o.blocks) &&
    Get(f, Key.headers) == Int(o.headers) && Get(f, Key.best_block_hash) == FromText(o.bestBlockHash) &&
    Get(f, Key.median_time) == Int(o.medianTime) &&
    Get(f, Key.initial_block_download) == Bool(o.initialBlockDownload) &&
    Get(f, Key.pruned) == Bool(o.pruned) && Get(f, Key.chainwork) == FromOptionalText(o.chainwork)
  }

  /** The host reads an overview from exactly the payloads that stand for it. */
  lemma HostOverviewIff(f: Fields, o: NodeOverview)
    ensures HostOverview(f) == Ok(o) <==> OverviewShown(f, o) && o.Valid()
  {
    hide AsMap, GoodText, StrictHex, AnyHexMatch, HexMatch;
    StrictHexMatches(o.bestBlockHash);
    if o.chainwork.Some? {
      StrictHexMatches(o.chainwork.value);
    }
  }

  /** All members are there with the right types; the hashes may be in capitals. */
  predicate OverviewTyped(f: Fields) {
    var (subversion, chain, best, work) :=
      (Get(f, Key.subversion), Get(f, Key.chain), Get(f, Key.best_block_hash), Get(f, Key.chainwork));
    Get(f, Key.version).Int? && subversion.Text? && subversion.t.Str? && GoodText(subversion.t.s) &&
    Get(f, Key.network_active).Bool? && Get(f, Key.connections).Int? && Get(f, Key.connections).i >= 0 && chain.Text? &&
    Get(f, Key.blocks).Int? && Get(f, Key.blocks).i >= 0 && Get(f, Key.headers).Int? && Get(f, Key.headers).i >= 0 &&
    best.Text? && best.t.Str? && AnyHexMatch(best.t.s) && Get(f, Key.median_time).Int? &&
    Get(f, Key.median_time).i >= 0 && Get(f, Key.initial_block_download).Bool? && Get(f, Key.pruned).Bool? &&
    (work == Null || (work.Text? && work.t.Str? && AnyHexMatch(work.t.s)))
  }

  predicate OverviewExpected(f: Fields) {
    Get(f, Key.version) == Int(310100) && Get(f, Key.chain) == Value.Text(Str("regtest"))
  }

  /** And when it fails, how. */
  lemma HostOverviewFails(f: Fields)
    ensures HostOverview(f) == Err(RpcIncompatibleNodeError) <==> OverviewTyped(f) && !OverviewExpected(f)
    ensures HostOverview(f) == Err(ValueError) <==>
      (Get(f, Key.version).Int? && Get(f, Key.subversion).Text? && Get(f, Key.subversion).t.Lone?) ||
      (OverviewTyped(f) && OverviewExpected(f) &&
       !(StrictHex(Get(f, Key.best_block_hash).t.s) &&
         (Get(f, Key.chainwork) != Null ==> StrictHex(Get(f, Key.chainwork).t.s))))
    ensures HostOverview(f).Err? ==>
      HostOverview(f).error in {RpcIncompatibleNodeError, ValueError, RpcMalformedResponseError}
  {
    hide AsMap, GoodText, StrictHex, AnyHexMatch, HexMatch;
  }

  // ----- inspect_block, inspect_mempool, inspect_peers -----

  predicate BlockShown(f: Fields, b: BlockSummary) {
    Get(f, Key.hash) == FromText(b.hash) && Get(f, Key.height) == Int(b.height) &&
    Get(f, Key.confirmations) == Int(b.confirmations) && Get(f, Key.timestamp) == Int(b.timestamp) &&
    Get(f, Key.transaction_count) == Int(b.transactionCount) && Get(f, Key.size) == Int(b.size) &&
    Get(f, Key.weight) == Int(b.weight) && Get(f, Key.previous_block_hash) == FromOptionalText(b.previousBlockHash) &&
    Get(f, Key.next_block_hash) == FromOptionalText(b.nextBlockHash)
  }

  predicate MempoolShown(f: Fields, m: MempoolSummary) {
    Get(f, Key.loaded) == Bool(m.loaded) && Get(f, Key.transaction_count) == Int(m.transactionCount) &&
    Get(f, Key.serialized_bytes) == Int(m.serializedBytes) &&
    Get(f, Key.dynamic_memory_usage) == Int(m.dynamicMemoryUsage) && Get(f, Key.max_memory) == Int(m.maxMemory) &&
    Get(f, Key.total_fees_satoshis) == Int(m.totalFeesSatoshis)
  }

  predicate PeerShown(v: Value, p: PeerSummary) {
    v.Obj? &&
    var f := v.fields;
    Get(f, Key.peer_id) == Int(p.peerId) && Get(f, Key.endpoint) == FromText(p.endpoint) &&
    Get(f, Key.network) == FromText(p.network) && Get(f, Key.inbound) == Bool(p.inbound) &&
    Get(f, Key.connection_type) == FromText(p.connectionType) &&
    Get(f, Key.protocol_version) == Int(p.protocolVersion) && Get(f, Key.subversion) == FromText(p.subversion) &&
    Get(f, Key.synced_headers) == FromOptionalInt(p.syncedHeaders) &&
    Get(f, Key.synced_blocks) == FromOptionalInt(p.syncedBlocks) &&
    Get(f, Key.ping_time_seconds) ==
      if p.pingTimeSeconds.None? then Null else Flt(Finite(p.pingTimeSeconds.value))
  }

  lemma HostBlockIff(f: Fields, b: BlockSummary)
    ensures HostBlock(f) == Ok(b) <==> BlockShown(f, b) && b.Valid()
  {
    hide AsMap, HexMatch;
  }

  lemma HostMempoolIff(f: Fields, m: MempoolSummary)
    ensures HostMempool(f) == Ok(m) <==> MempoolShown(f, m) && m.Valid()
  {
    hide AsMap;
  }

  lemma HostPeerIff(v: Value, p: PeerSummary)
    ensures HostPeer(v) == Some(p) <==> PeerShown(v, p) && p.Valid()
  {
    hide AsMap, GoodText;
  }

  /** Each entry stands for the peer in its place. */
  predicate AllShown(items: seq<Value>, ps: seq<PeerSummary>) {
    |ps| == |items| && forall i :: 0 <= i < |items| ==> PeerShown(items[i], ps[i]) && ps[i].Valid()
  }

  lemma AllShownIff(items: seq<Value>, ps: seq<PeerSummary>)
    requires |ps| == |items|
    ensures AllShown(items, ps) <==> forall i :: 0 <= i < |items| ==> HostPeer(items[i]) == Some(ps[i])
  {
    hide HostPeer, PeerShown;
    forall i | 0 <= i < |items|
      ensures HostPeer(items[i]) == Some(ps[i]) <==> PeerShown(items[i], ps[i]) && ps[i].Valid()
    {
      HostPeerIff(items[i], ps[i]);
    }
  }

  /** The host reads a list of peers exactly when it is the increasing arrangement of what at most 256 entries, all
      of them good, stand for. */
  lemma HostPeersIff(f: Fields, t: seq<PeerSummary>)
    ensures HostPeers(f) == Ok(t) <==>
      var list := Get(f, Key.peers);
      list.Arr? && |list.items| <= 256 && Increasing(t) &&
      exists ps: seq<PeerSummary> :: multiset(ps) == multiset(t) && AllShown(list.items, ps)
  {
    hide HostPeer, Canonical, AsMap;
    var list := Get(f, Key.peers);
    if list.Arr? {
      var parsed := Map(HostPeer, list.items);
      CanonicalIff(parsed, t);
      if AllSome(parsed) {
        AllShownIff(list.items, Values(parsed));
      }
      if ps: seq<PeerSummary> :| multiset(ps) == multiset(t) && AllShown(list.items, ps) {
        AllShownIff(list.items, ps);
        assert Values(parsed) == ps;
      }
    }
  }
}
