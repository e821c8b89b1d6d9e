/** Why the peers round trip needs its size bound: the list `get_peers` returns may be too long to print. */
module PeerSize {
  import opened Outcome
  import opened Text
  import opened Json
  import opened Domain
  import opened Process
  import opened Peers
  import opened Delegation
  import RpcSpec

  /** The bytes that the string values alone take up; no JSON text of the value is shorter. */
  function TextBytes(v: Value): nat
    decreases v
  {
    match v
    case Text(Str(s)) => Utf8Len(s)
    case Arr(items) => ItemsBytes(items)
    case Obj(fields) => FieldsBytes(fields)
    case _ => 0
  }

  function ItemsBytes(items: seq<Value>): nat
    decreases items
  {
    if items == [] then 0 else ItemsBytes(items[..|items| - 1]) + TextBytes(items[|items| - 1])
  }

  function MemberBytes(m: Member): nat
    decreases m
  {
    TextBytes(m.value)
  }

  function FieldsBytes(fields: Fields): nat
    decreases fields
  {
    if fields == [] then 0 else FieldsBytes(fields[..|fields| - 1]) + MemberBytes(fields[|fields| - 1])
  }

  lemma {:induction false} FieldCounts(fields: Fields, i: nat)
    requires i < |fields|
    ensures FieldsBytes(fields) >= TextBytes(fields[i].value)
  {
    if i < |fields| - 1 {
      FieldCounts(fields[..|fields| - 1], i);
    }
  }

  lemma EndpointGet(p: PeerSummary, f: Fields)
    requires AsMap(f) == p.ToDict()
    ensures Key.endpoint in AsMap(f) && Get(f, Key.endpoint) == FromText(p.endpoint)
  {
    hide AsMap;
  }

  lemma PeerBytes(p: PeerSummary, v: Value)
    requires Writes(v, p.ToDict())
    ensures TextBytes(v) >= Utf8Len(p.endpoint)
  {
    hide AsMap, DistinctKeys, FieldsBytes;
    var f := v.fields;
    EndpointGet(p, f);
    AsMapKeys(f);
    var i :| 0 <= i < |f| && f[i].key == Key.endpoint;
    GetAt(f, i, Key.endpoint);
    FieldCounts(f, i);
  }

  lemma {:induction false} ListBytes(peers: seq<PeerSummary>, items: seq<Value>, width: nat)
    requires PrintedPeers(peers, items) && forall p :: p in peers ==> Utf8Len(p.endpoint) == width
    ensures ItemsBytes(items) >= width * |peers|
  {
    hide Writes, Utf8Len, TextBytes;
    if peers == [] {
    } else {
      var n := |peers| - 1;
      PeerBytes(peers[n], items[n]);
      ListBytes(peers[..n], items[..n], width);
      assert width * |peers| == width * n + width;
    }
  }

  function Filled(n: nat): (s: string)
    ensures |s| == n && forall i :: 0 <= i < n ==> s[i] == 'a'
  {
    if n == 0 then "" else Filled(n - 1) + ['a']
  }

  /** 256 valid peers, each with an endpoint of the full 512 bytes. */
  function WidePeer(id: nat): (p: PeerSummary)
    ensures p.peerId == id
  {
    PeerSummary(id, Filled(512), "ipv4", false, "inbound", 0, "/", None, None, None)
  }

  function WidePeers(): seq<PeerSummary> {
    seq(256, i requires 0 <= i < 256 => WidePeer(i))
  }

  lemma WidePeerValid(id: nat)
    ensures WidePeer(id).Valid() && Utf8Len(WidePeer(id).endpoint) == 512
  {
    hide Utf8Len, Filled;
    PrintableUtf8(Filled(512));
    PrintableUtf8("ipv4");
    PrintableUtf8("inbound");
    PrintableUtf8("/");
  }

  /** The answer of `getpeerinfo` that such peers come from. */
  function RpcFields(id: nat): Fields {
    [Member(Key.id, Int(id))] + [Member(Key.addr, FromText(Filled(512)))] + [Member(Key.network, FromText("ipv4"))] +
    [Member(Key.inbound, Bool(false))] + [Member(Key.connection_type, FromText("inbound"))] +
    [Member(Key.version, Int(0))] + [Member(Key.subver, FromText("/"))] +
    [Member(Key.synced_headers, Int(-1))] + [Member(Key.synced_blocks, Int(-1))]
  }

  function RpcPeers(): seq<Value> {
    seq(256, i requires 0 <= i < 256 => Obj(RpcFields(i)))
  }

  function RpcDict(id: nat): map<Key, Value> {
    map[Key.id := Int(id), Key.addr := FromText(Filled(512)), Key.network := FromText("ipv4"),
        Key.inbound := Bool(false), Key.connection_type := FromText("inbound"), Key.version := Int(0),
        Key.subver := FromText("/"), Key.synced_headers := Int(-1), Key.synced_blocks := Int(-1)]
  }

  /** Appending members one after another stores them one after another. */
  lemma {:induction false} AsMapOfPrefix(f: Fields, n: nat)
    requires 0 < n <= |f|
    ensures AsMap(f[..n]) == AsMap(f[..n - 1])[f[n - 1].key := f[n - 1].value]
  {
    assert f[..n] == f[..n - 1] + [f[n - 1]];
    AsMapAppend(f[..n - 1], f[n - 1]);
  }

  lemma RpcMembers(id: nat)
    ensures AsMap(RpcFields(id)) == RpcDict(id)
  {
    hide AsMap, Filled;
    var f := RpcFields(id);
    assert AsMap(f[..0]) == map[] by { AsMapEmpty(); assert f[..0] == []; }
    AsMapOfPrefix(f, 1);
    AsMapOfPrefix(f, 2);
    AsMapOfPrefix(f, 3);
    AsMapOfPrefix(f, 4);
    AsMapOfPrefix(f, 5);
    AsMapOfPrefix(f, 6);
    AsMapOfPrefix(f, 7);
    AsMapOfPrefix(f, 8);
    AsMapOfPrefix(f, 9);
    assert f[..9] == f;
  }

  function WideArgs(id: nat): PeerArgs {
    PeerArgs(Int(id), FromText(Filled(512)), FromText("ipv4"), Bool(false), FromText("inbound"), Int(0), FromText("/"),
             Null, Null, Null)
  }

  lemma WidePeerParsed(toFloat: Decimal -> Float, id: nat)
    ensures RpcSpec.PeerOf(toFloat, Obj(RpcFields(id))) == MakePeer(WideArgs(id))
  {
    hide AsMap, Filled, RpcFields, MakePeer;
    RpcMembers(id);
  }

  lemma WidePeerMade(id: nat)
    ensures MakePeer(WideArgs(id)) == Some(WidePeer(id))
  {
    hide Utf8Len, Filled, Printable;
    WidePeerValid(id);
  }

  /** `get_peers` does return the wide peers, in answer to such an array. */
  lemma WidePeersReturned(lib: RpcSpec.RpcLibrary)
    ensures RpcSpec.PeersOf(lib, Arr(RpcPeers())) == Ok(WidePeers())
  {
    hide RpcFields, WidePeer, Canonical;
    var ps := Map(x => RpcSpec.PeerOf(lib.toFloat, x), RpcPeers());
    forall i | 0 <= i < 256 ensures ps[i] == Some(WidePeers()[i]) {
      WidePeerParsed(lib.toFloat, i);
      WidePeerMade(i);
    }
    CanonicalFixed(WidePeers(), ps);
  }

  /** `get_peers` can return this list, yet it never arrives on the host, however it is printed. */
  lemma SizeBoundIsNeeded(lib: RpcSpec.RpcLibrary, loads: Loads, items: seq<Value>, out: string, err: string)
    requires PrintedPeers(WidePeers(), items) && Utf8Len(out) >= TextBytes(PeersJson(items))
    ensures RpcSpec.PeersOf(lib, Arr(RpcPeers())) == Ok(WidePeers())
    ensures (forall p :: p in WidePeers() ==> p.Valid()) && Increasing(WidePeers()) && |WidePeers()| == 256
    ensures Payload(loads, Exited(0, out, err)) == Err(RpcResponseSizeExceededError)
  {
    hide Writes, Utf8Len, WidePeer, ItemsBytes, RpcPeers, RpcSpec.PeersOf;
    WidePeersReturned(lib);
    forall p | p in WidePeers() ensures p.Valid() && Utf8Len(p.endpoint) == 512 {
      var i :| 0 <= i < 256 && p == WidePeer(i);
      WidePeerValid(i);
    }
    ListBytes(WidePeers(), items, 512);
    var f := PeersJson(items).fields;
    FieldCounts(f, 0);
    OversizeRefused(loads, out, err);
  }
}
