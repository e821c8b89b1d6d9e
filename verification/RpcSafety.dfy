/** What every run of the RPC client keeps, and what its results mean on the host. */
module RpcSafety {
  import opened Outcome
  import opened Text
  import opened Json
  import opened Domain
  import opened Process
  import opened Runs
  import opened RpcWorld
  import opened RpcSpec
  import opened AdapterSpec
  import opened Peers
  import Delegation
  import Fees

  // ----- The chunk loop -----

  predicate HasChunk(e: Event) { e.Reading? && e.reply.Chunk? }

  /** The bytes that the reads delivered, in order. */
  function Joined(es: seq<Event>): Bytes {
    if es == [] then [] else (if HasChunk(es[0]) then es[0].reply.bytes else []) + Joined(es[1..])
  }

  /** Every read delivered bytes, up to a last one that delivered none. */
  predicate FullRead(es: seq<Event>) {
    es != [] && HasChunk(es[|es| - 1]) && es[|es| - 1].reply.bytes == [] &&
    forall i :: 0 <= i < |es| - 1 ==> HasChunk(es[i]) && es[i].reply.bytes != []
  }

  lemma ReadShape(env: Script, t: Moment, deadline: real, left: real)
    requires 0.0 < left == deadline - t.now
    ensures var r := ReadOnce(env, t, deadline, left);
      |r.events| == 1 && r.events[0].Reading? &&
      (r.out.Ok? <==> HasChunk(r.events[0]) && r.at.now < deadline) &&
      (r.out.Ok? ==> r.out.value == r.events[0].reply.bytes) &&
      (HasChunk(r.events[0]) && r.out.Err? ==> r.at.now >= deadline)
  {
  }

  lemma FullReadStep(e: Event, rest: seq<Event>)
    requires HasChunk(e)
    ensures e.reply.bytes == [] ==> FullRead([e]) && Joined([e]) == []
    ensures e.reply.bytes != [] ==> (FullRead([e] + rest) <==> FullRead(rest))
    ensures Joined([e] + rest) == e.reply.bytes + Joined(rest)
  {
    var es := [e] + rest;
    assert es[1..] == rest;
    assert [e][1..] == [];
    if e.reply.bytes != [] {
      assert forall i :: 0 <= i < |rest| ==> es[i + 1] == rest[i];
      if FullRead(es) {
        assert rest != [] && es[|es| - 1] == rest[|rest| - 1];
        forall i | 0 <= i < |rest| - 1 ensures HasChunk(rest[i]) && rest[i].reply.bytes != [] {
          assert es[i + 1] == rest[i];
        }
      }
      if FullRead(rest) {
        forall i | 0 <= i < |es| - 1 ensures HasChunk(es[i]) && es[i].reply.bytes != [] {
          assert i > 0 ==> es[i] == rest[i - 1];
        }
      }
    }
  }

  /** The loop returns normally exactly when its reads ran up to the first empty chunk, within the
      size limit and with time to spare, and then returns the chunks read, joined. */
  lemma {:induction false} DrainExact(env: Script, m: Moment, deadline: real, got: Bytes)
    requires |got| <= MAX_RESPONSE
    ensures var r := Drain(env, m, deadline, got);
      (r.out.Ok? <==> FullRead(r.events) && r.at.now < deadline) &&
      (r.out.Ok? ==> r.out.value == got + Joined(r.events) && |r.out.value| <= MAX_RESPONSE)
    decreases MAX_RESPONSE - |got|
  {
    hide InTime, ReadOnce, FullRead, Joined;
    var t := Read(env, m);
    var left := deadline - t.now;
    if left <= 0.0 {
      NothingRead();
    } else {
      var one := ReadOnce(env, t, deadline, left);
      ReadShape(env, t, deadline, left);
      assert one.events == [one.events[0]];
      if one.out.Err? {
        UnfinishedRead(one.events[0]);
      } else {
        FullReadStep(one.events[0], []);
        assert [one.events[0]] + [] == one.events;
        NothingRead();
        if one.out.value != [] && |got| + |one.out.value| <= MAX_RESPONSE {
          DrainExact(env, one.at, deadline, got + one.out.value);
          FullReadStep(one.events[0], Drain(env, one.at, deadline, got + one.out.value).events);
        }
      }
    }
  }

  lemma NothingRead()
    ensures !FullRead([]) && Joined([]) == []
  {
  }

  lemma UnfinishedRead(e: Event)
    ensures !HasChunk(e) ==> !FullRead([e])
  {
    assert [e][|[e]| - 1] == e;
  }

  // ----- The envelope -----

  /** The body is UTF-8 text of a JSON object without repeated names, nested at most 32 deep, that
      carries the request's identifier, a null error, and this non-null result. */
  predicate Answers(lib: RpcLibrary, body: Bytes, reqId: string, result: Value) {
    lib.decode(body).Some? &&
    var v := lib.loads(lib.decode(body).value);
    v.Some? && v.value.Obj? && UniqueDeep(v.value) && Depth(v.value) <= MAX_DEPTH &&
    Has(v.value.fields, Key.id) && Has(v.value.fields, Key.error) && Has(v.value.fields, Key.result) &&
    Get(v.value.fields, Key.id) == FromText(reqId) && Get(v.value.fields, Key.error) == Null &&
    Get(v.value.fields, Key.result) == result && result != Null
  }

  /** The client takes a result from exactly such bodies. */
  lemma BodyAnswers(lib: RpcLibrary, body: Bytes, reqId: string, result: Value)
    ensures ParseBody(lib, body, reqId) == Ok(result) <==> Answers(lib, body, reqId, result)
  {
    hide CheckDepth, UniqueDeep, AsMap, Has;
    if lib.decode(body).Some? {
      var v := lib.loads(lib.decode(body).value);
      if v.Some? && v.value.Obj? {
        AsMapKeys(v.value.fields);
        CheckDepthExact(v.value, 1, MAX_DEPTH);
      }
    }
  }

  /** A result comes from one full read, in time and in size, of a body that answers the request. */
  lemma EnvelopeSound(lib: RpcLibrary, env: Script, m: Moment, reqId: string, deadline: real)
    ensures var r := Envelope(lib, env, m, reqId, deadline);
      r.out.Ok? <==> FullRead(r.events) && r.at.now < deadline && ParseBody(lib, Joined(r.events), reqId).Ok?
    ensures var r := Envelope(lib, env, m, reqId, deadline);
      r.out.Ok? ==> |Joined(r.events)| <= MAX_RESPONSE && Answers(lib, Joined(r.events), reqId, r.out.value)
  {
    hide Drain, ParseBody, Answers, FullRead, Joined;
    DrainExact(env, m, deadline, []);
    var r := Envelope(lib, env, m, reqId, deadline);
    var body := Joined(r.events);
    assert [] + body == body;
    if r.out.Ok? {
      BodyAnswers(lib, body, reqId, r.out.value);
    }
  }

  /** Only a successfully opened response yields a result: an HTTP error body never does. */
  lemma OnlySuccessAnswers(lib: RpcLibrary, env: Script, m: Moment, reply: OpenReply, reqId: string, deadline: real)
    ensures AfterOpen(lib, env, m, reply, reqId, deadline).out.Ok? ==> reply.Opened?
  {
    hide Envelope;
  }

  /** The run sent the request once and then read one full answer to it, all before the deadline. */
  predicate Answered(lib: RpcLibrary, rpc: string, params: seq<Value>, reqId: string, deadline: real,
                     r: Run<Value, Event>)
  {
    r.out.Ok? && r.events != [] && r.events[0].Request? && r.events[0].rpc == rpc && r.events[0].params == params &&
    FullRead(r.events[1..]) && r.at.now < deadline && |Joined(r.events[1..])| <= MAX_RESPONSE &&
    Answers(lib, Joined(r.events[1..]), reqId, r.out.value)
  }

  lemma SendSound(lib: RpcLibrary, env: Script, m: Moment, rpc: string, params: seq<Value>, reqId: string,
                  deadline: real)
    ensures var r := Send(lib, env, m, rpc, params, reqId, deadline);
      r.out.Ok? ==> AllowedMethod(rpc) && Answered(lib, rpc, params, reqId, deadline, r)
  {
    hide Exchange, AllowedMethod, Answered, InTime;
    var t := Read(env, m);
    var u := Read(env, Read(env, t));
    if u.now < deadline {
      ExchangeSound(lib, env, u, rpc, params, reqId, deadline);
    }
  }

  lemma ExchangeSound(lib: RpcLibrary, env: Script, t: Moment, rpc: string, params: seq<Value>, reqId: string,
                      deadline: real)
    requires t.now < deadline
    ensures var r := Exchange(lib, env, t, rpc, params, reqId, deadline);
      r.out.Ok? ==> Answered(lib, rpc, params, reqId, deadline, r)
  {
    hide Envelope, Answers, FullRead, Joined, InTime;
    var tick := env(t.step);
    var done := After(t, tick.lasts);
    var r := Exchange(lib, env, t, rpc, params, reqId, deadline);
    if r.out.Ok? {
      OnlySuccessAnswers(lib, env, done, tick.open, reqId, deadline);
      EnvelopeSound(lib, env, done, reqId, deadline);
      assert r.events[1..] == Envelope(lib, env, done, reqId, deadline).events;
    }
  }

  // ----- Two requests, one budget -----

  predicate AsksFor(e: Event, rpc: string) { e.Request? && e.rpc == rpc }

  predicate NeverAsks(es: seq<Event>, rpc: string) {
    forall e :: e in es ==> !AsksFor(e, rpc)
  }

  lemma {:induction false} DrainAsksNothing(env: Script, m: Moment, deadline: real, got: Bytes)
    requires |got| <= MAX_RESPONSE
    ensures forall e :: e in Drain(env, m, deadline, got).events ==> e.Reading?
    decreases MAX_RESPONSE - |got|
  {
    hide InTime, ReadOnce;
    var t := Read(env, m);
    var left := deadline - t.now;
    if left > 0.0 {
      ReadShape(env, t, deadline, left);
      var one := ReadOnce(env, t, deadline, left);
      if one.out.Ok? && one.out.value != [] && |got| + |one.out.value| <= MAX_RESPONSE {
        DrainAsksNothing(env, one.at, deadline, got + one.out.value);
      }
    }
  }

  /** Nothing was sent, or the one request came first and only reads followed. */
  predicate AsksOnce(es: seq<Event>, rpc: string, params: seq<Value>) {
    es == [] ||
    (AsksFor(es[0], rpc) && es[0].params == params && forall i :: 1 <= i < |es| ==> es[i].Reading?)
  }

  /** In every run, whether it fails or not, one call of `_send_request` sends at most one request, that
      of its own method, and does so before it reads anything. */
  lemma SendAsksOnce(lib: RpcLibrary, env: Script, m: Moment, rpc: string, params: seq<Value>, reqId: string,
                     deadline: real)
    ensures var es := Send(lib, env, m, rpc, params, reqId, deadline).events;
      AsksOnce(es, rpc, params) && forall e :: e in es ==> e.Reading? || AsksFor(e, rpc)
  {
    hide Drain, ParseBody, InTime, AllowedMethod;
    var u := Read(env, Read(env, Read(env, m)));
    DrainAsksNothing(env, After(u, env(u.step).lasts), deadline, []);
  }

  /** The chain is asked for only after the network facts were received and judged good. */
  lemma OverviewOrder(lib: RpcLibrary, env: Script, m: Moment, deadline: real)
    ensures var r := OverviewBy(lib, env, m, deadline);
      var net := Send(lib, env, m, "getnetworkinfo", [], "bitheim-req-1", deadline);
      net.events <= r.events && NeverAsks(net.events, "getblockchaininfo") &&
      (NeverAsks(r.events, "getblockchaininfo") ||
       (Answered(lib, "getnetworkinfo", [], "bitheim-req-1", deadline, net) && JudgeNetwork(net.out.value).Ok?))
  {
    hide Send, JudgeNetwork, JudgeChain, OverviewOf, InTime, Answered;
    var net := Send(lib, env, m, "getnetworkinfo", [], "bitheim-req-1", deadline);
    SendAsksOnce(lib, env, m, "getnetworkinfo", [], "bitheim-req-1", deadline);
    SendSound(lib, env, m, "getnetworkinfo", [], "bitheim-req-1", deadline);
    MethodsDiffer();
  }

  lemma MethodsDiffer()
    ensures "getnetworkinfo" != "getblockchaininfo" && "getblockhash" != "getblock"
  {
    assert |"getnetworkinfo"| == 14 && |"getblockchaininfo"| == 17;
  }

  /** A returned overview is valid, and was assembled before the deadline. */
  lemma OverviewSound(lib: RpcLibrary, env: Script, m: Moment, deadline: real)
    ensures var r := OverviewBy(lib, env, m, deadline);
      r.out.Ok? ==> r.out.value.Valid() && r.at.now < deadline
  {
    hide Send, JudgeNetwork, JudgeChain, InTime, MakeOverview, Answered;
    var net := Send(lib, env, m, "getnetworkinfo", [], "bitheim-req-1", deadline);
    SendInTime(lib, env, net.at, "getblockchaininfo", [], "bitheim-req-2", deadline);
  }

  lemma SendInTime(lib: RpcLibrary, env: Script, m: Moment, rpc: string, params: seq<Value>, reqId: string,
                   deadline: real)
    ensures var r := Send(lib, env, m, rpc, params, reqId, deadline); r.out.Ok? ==> r.at.now < deadline
  {
    hide Send, Answers, FullRead, Joined;
    SendSound(lib, env, m, rpc, params, reqId, deadline);
  }

  /** The block is asked for only once its hash is known and well formed, and the block returned
      is the one with that hash. */
  lemma BlockSound(lib: RpcLibrary, env: Script, m: Moment, hash: Option<string>, height: Value, deadline: real)
    ensures var r := BlockBy(lib, env, m, hash, height, deadline);
      var resolved := ResolveHash(lib, env, m, hash, height, deadline);
      (r.out.Ok? ==> r.out.value.Valid() && r.at.now < deadline && resolved.out == Ok(Str(r.out.value.hash))) &&
      (r.out.Ok? && hash.Some? ==> r.out.value.hash == hash.value) &&
      (!(resolved.out.Ok? && IsHexMatch(Value.Text(resolved.out.value))) ==> NeverAsks(r.events, "getblock"))
  {
    hide Send, BlockOf, InTime, HexMatch;
    var resolved := ResolveHash(lib, env, m, hash, height, deadline);
    MethodsDiffer();
    if hash.None? && IsNat(height) {
      SendAsksOnce(lib, env, m, "getblockhash", [height], "bitheim-req-hash", deadline);
    }
    if resolved.out.Ok? && IsHexMatch(Value.Text(resolved.out.value)) {
      var wanted := resolved.out.value.s;
      SendInTime(lib, env, resolved.at, "getblock", [FromText(wanted), Int(1)], "bitheim-req-block", deadline);
      var r := Send(lib, env, resolved.at, "getblock", [FromText(wanted), Int(1)], "bitheim-req-block", deadline);
      if r.out.Ok? && r.out.value.Obj? {
        BlockValid(r.out.value.fields);
      }
    }
  }

  lemma BlockValid(f: Fields)
    ensures BlockOf(f).Ok? ==> BlockOf(f).value.Valid()
  {
  }

  lemma {:induction false} DrainErrors(env: Script, m: Moment, deadline: real, got: Bytes)
    requires |got| <= MAX_RESPONSE
    ensures var r := Drain(env, m, deadline, got);
      r.out.Err? ==> r.out.error.IsRpc() || r.out.error == OtherException
    decreases MAX_RESPONSE - |got|
  {
    hide InTime;
    var t := Read(env, m);
    var left := deadline - t.now;
    if left > 0.0 {
      var one := ReadOnce(env, t, deadline, left);
      if one.out.Ok? && one.out.value != [] && |got| + |one.out.value| <= MAX_RESPONSE {
        DrainErrors(env, one.at, deadline, got + one.out.value);
      }
    }
  }

  lemma BodyErrors(lib: RpcLibrary, body: Bytes, reqId: string)
    ensures ParseBody(lib, body, reqId).Err? ==> ParseBody(lib, body, reqId).error.IsRpc()
  {
    hide CheckDepth, UniqueDeep, AsMap;
  }

  lemma SendErrors(lib: RpcLibrary, env: Script, m: Moment, rpc: string, params: seq<Value>, reqId: string,
                   deadline: real)
    ensures var r := Send(lib, env, m, rpc, params, reqId, deadline);
      r.out.Err? ==> r.out.error.IsRpc() || r.out.error == OtherException
  {
    hide Drain, ParseBody, InTime, AllowedMethod;
    var u := Read(env, Read(env, Read(env, m)));
    var done := After(u, env(u.step).lasts);
    DrainErrors(env, done, deadline, []);
    var body := Drain(env, done, deadline, []);
    if body.out.Ok? {
      BodyErrors(lib, body.out.value, reqId);
    }
  }

  /** A lone surrogate stands where the node's network facts or its chain facts are encoded. */
  predicate OverviewEscapes(net: Value, chain: Option<Value>) {
    (net.Obj? && Get(net.fields, Key.version).Int? && Get(net.fields, Key.subversion).Text? &&
      Get(net.fields, Key.subversion).t.Lone?) ||
    (JudgeNetwork(net).Ok? && chain.Some? && chain.value.Obj? && Get(chain.value.fields, Key.chain).Text? &&
      Get(chain.value.fields, Key.chain).t.Lone?)
  }

  lemma JudgeErrors(net: Value, chain: Value)
    ensures JudgeNetwork(net) == Err(ValueError) <==> OverviewEscapes(net, None)
    ensures JudgeNetwork(net) == Err(ValueError) || (JudgeNetwork(net).Ok? && JudgeChain(chain) == Err(ValueError)) <==>
            OverviewEscapes(net, Some(chain))
    ensures JudgeNetwork(net).Err? ==> JudgeNetwork(net).error.IsRpc() || JudgeNetwork(net).error == ValueError
    ensures JudgeChain(chain).Err? ==> JudgeChain(chain).error.IsRpc() || JudgeChain(chain).error == ValueError
  {
    hide GoodText, HexMatch, AsMap, Utf8Len;
  }

  function Received(r: Run<Value, Event>): Option<Value> { if r.out.Ok? then Some(r.out.value) else None }

  /** Every run of the node lookup ends in a valid overview or an `RpcError`, but for two ways out: what
      the world itself raises unforeseen, and a `ValueError`, which gets out exactly when a lone
      surrogate stands in the subversion or the chain that a good answer carries. */
  lemma OverviewEscapesIff(lib: RpcLibrary, env: Script, m: Moment, deadline: real)
    ensures var r := OverviewBy(lib, env, m, deadline);
      var net := Send(lib, env, m, "getnetworkinfo", [], "bitheim-req-1", deadline);
      var chain := Send(lib, env, net.at, "getblockchaininfo", [], "bitheim-req-2", deadline);
      (r.out == Err(ValueError) <==> net.out.Ok? && OverviewEscapes(net.out.value, Received(chain))) &&
      (r.out.Err? ==> r.out.error.IsRpc() || r.out.error == ValueError || r.out.error == OtherException)
  {
    hide Send, JudgeNetwork, JudgeChain, InTime, MakeOverview, OverviewEscapes;
    var net := Send(lib, env, m, "getnetworkinfo", [], "bitheim-req-1", deadline);
    SendErrors(lib, env, m, "getnetworkinfo", [], "bitheim-req-1", deadline);
    if net.out.Ok? {
      var chain := Send(lib, env, net.at, "getblockchaininfo", [], "bitheim-req-2", deadline);
      SendErrors(lib, env, net.at, "getblockchaininfo", [], "bitheim-req-2", deadline);
      EscapesNeedsGood(net.out.value, Received(chain));
      JudgeErrors(net.out.value, if chain.out.Ok? then chain.out.value else Null);
    }
  }

  lemma EscapesNeedsGood(net: Value, chain: Option<Value>)
    ensures JudgeNetwork(net).Err? ==> (OverviewEscapes(net, chain) <==> OverviewEscapes(net, None))
  {
    hide GoodText, AsMap;
  }

  // ----- An answer that makes it escape -----

  /** A JSON-RPC answer that carries such network facts. */
  function SurrogateAnswer(escaped: string): Fields {
    [Member(Key.id, FromText("bitheim-req-1"))] + [Member(Key.result, Obj(Delegation.SurrogateFacts(escaped)))] +
    [Member(Key.error, Null)]
  }

  /** A peer that answers at once, in one chunk. */
  function OneChunk(body: Bytes): (env: Script)
    ensures forall n: nat :: env(n) == Tick(0.0, 0.0, true, Opened, Chunk(if n == 5 then body else []))
  {
    n => Tick(0.0, 0.0, true, Opened, Chunk(if n == 5 then body else []))
  }

  lemma SurrogateIsJudged(escaped: string)
    ensures UniqueDeep(Obj(Delegation.SurrogateFacts(escaped))) && Depth(Obj(Delegation.SurrogateFacts(escaped))) <= 2
    ensures JudgeNetwork(Obj(Delegation.SurrogateFacts(escaped))) == Err(ValueError)
  {
    hide Utf8Len, AsMap, DistinctKeys;
    var f := Delegation.SurrogateFacts(escaped);
    Delegation.SurrogateGets(escaped);
    DepthFieldsLeq(f, 1);
  }

  lemma SurrogateMembers(escaped: string)
    ensures var f := SurrogateAnswer(escaped);
      DistinctKeys(f) && AsMap(f) == map[Key.id := FromText("bitheim-req-1"),
                                         Key.result := Obj(Delegation.SurrogateFacts(escaped)), Key.error := Null]
  {
    hide AsMap, DistinctKeys, Delegation.SurrogateFacts;
    var f := SurrogateAnswer(escaped);
    AsMapEmpty();
    AsMapAppend([], f[0]);
    assert [] + [f[0]] == [f[0]];
    AsMapAppend([f[0]], f[1]);
    AsMapAppend([f[0]] + [f[1]], f[2]);
  }

  lemma SurrogateIsShallow(escaped: string)
    ensures UniqueDeep(Obj(SurrogateAnswer(escaped))) && Depth(Obj(SurrogateAnswer(escaped))) <= 3
  {
    hide AsMap, DistinctKeys, Delegation.SurrogateFacts, JudgeNetwork;
    SurrogateMembers(escaped);
    SurrogateIsJudged(escaped);
    DepthFieldsLeq(SurrogateAnswer(escaped), 2);
  }

  lemma SurrogateIsAnswered(lib: RpcLibrary, body: Bytes, escaped: string)
    requires lib.decode(body).Some? && lib.loads(lib.decode(body).value) == Some(Obj(SurrogateAnswer(escaped)))
    ensures ParseBody(lib, body, "bitheim-req-1") == Ok(Obj(Delegation.SurrogateFacts(escaped)))
  {
    hide AsMap, DistinctKeys, Delegation.SurrogateFacts, SurrogateAnswer, ParseBody, UniqueDeep, Depth, Has;
    SurrogateIsShallow(escaped);
    SurrogateMembers(escaped);
    AsMapKeys(SurrogateAnswer(escaped));
    BodyAnswers(lib, body, "bitheim-req-1", Obj(Delegation.SurrogateFacts(escaped)));
  }

  lemma OneChunkRead(body: Bytes)
    requires 0 < |body| <= MAX_RESPONSE
    ensures Drain(OneChunk(body), Moment(0.0, 4), 10.0, []).out == Ok(body)
  {
    hide InTime;
    assert [] + body == body;
  }

  /** Such an answer, received in time and in good order, lets a `ValueError` out. */
  lemma SurrogateEscapes(lib: RpcLibrary, body: Bytes, escaped: string)
    requires 0 < |body| <= MAX_RESPONSE && lib.decode(body).Some?
    requires lib.loads(lib.decode(body).value) == Some(Obj(SurrogateAnswer(escaped)))
    ensures OverviewBy(lib, OneChunk(body), Moment(0.0, 0), 10.0).out == Err(ValueError)
  {
    hide InTime, Drain, ParseBody, JudgeNetwork, JudgeChain, Delegation.SurrogateFacts, SurrogateAnswer, OverviewOf;
    SurrogateIsJudged(escaped);
    SurrogateIsAnswered(lib, body, escaped);
    OneChunkRead(body);
    assert AllowedMethod("getnetworkinfo");
  }

  // ----- Results, and what becomes of them on the host -----

  /** A returned peer list is canonical and made of valid peers. */
  lemma PeersSound(lib: RpcLibrary, list: Value)
    ensures PeersOf(lib, list).Ok? ==>
      var t := PeersOf(lib, list).value;
      Increasing(t) && |t| <= 256 && (forall p :: p in t ==> p.Valid()) && list.Arr? &&
      var parsed := Map(x => PeerOf(lib.toFloat, x), list.items);
      AllSome(parsed) && multiset(t) == multiset(Values(parsed))
  {
    hide PeerOf;
    if PeersOf(lib, list).Ok? {
      var ps := Map(x => PeerOf(lib.toFloat, x), list.items);
      var t := PeersOf(lib, list).value;
      CanonicalSound(ps);
      forall p | p in t ensures p.Valid() {
        assert p in multiset(Values(ps));
        var i :| 0 <= i < |ps| && Values(ps)[i] == p;
        assert ps[i] == PeerOf(lib.toFloat, list.items[i]);
        PeerValid(lib.toFloat, list.items[i]);
      }
    }
  }

  lemma PeerValid(toFloat: Decimal -> Float, v: Value)
    ensures PeerOf(toFloat, v).Some? ==> PeerOf(toFloat, v).value.Valid()
  {
    hide MakePeer, PingOf;
  }

  /** The order of the RPC array does not matter. */
  lemma PeersUnordered(lib: RpcLibrary, a: seq<Value>, b: seq<Value>)
    requires multiset(a) == multiset(b)
    ensures PeersOf(lib, Arr(a)) == PeersOf(lib, Arr(b))
  {
    hide PeerOf, Canonical;
    MapPermutation(x => PeerOf(lib.toFloat, x), a, b);
    CanonicalPermutation(Map(x => PeerOf(lib.toFloat, x), a), Map(x => PeerOf(lib.toFloat, x), b));
  }

  /** A peer list returned in the container and printed within the size bound arrives unchanged. */
  lemma PeersArrive(lib: RpcLibrary, list: Value, loads: Loads, reply: Reply, items: seq<Value>)
    requires PeersOf(lib, list).Ok? && Delegation.PrintedPeers(PeersOf(lib, list).value, items)
    requires Delegation.Printed(loads, reply, Delegation.PeersJson(items))
    ensures Delegation.Payload(loads, reply).Ok?
    ensures Delegation.HostPeers(Delegation.Payload(loads, reply).value) == PeersOf(lib, list)
  {
    hide PeersOf, Delegation.Payload, Delegation.HostPeers, Delegation.Printed, Delegation.PrintedPeers;
    PeersSound(lib, list);
    Delegation.PeersRoundTrip(loads, reply, PeersOf(lib, list).value, items);
  }

  /** An overview returned in the container and printed within the size bound arrives unchanged. */
  lemma OverviewArrives(lib: RpcLibrary, env: Script, m: Moment, deadline: real, loads: Loads, reply: Reply, v: Value)
    requires var r := OverviewBy(lib, env, m, deadline);
      r.out.Ok? && Writes(v, r.out.value.ToDict()) && Delegation.Printed(loads, reply, v)
    ensures Delegation.Payload(loads, reply).Ok?
    ensures Delegation.HostOverview(Delegation.Payload(loads, reply).value) == OverviewBy(lib, env, m, deadline).out
  {
    hide OverviewBy, Delegation.Payload, Delegation.HostOverview, Delegation.Printed, Writes;
    OverviewSound(lib, env, m, deadline);
    Delegation.OverviewRoundTrip(loads, reply, OverviewBy(lib, env, m, deadline).out.value, v);
  }

  /** So does a block. */
  lemma BlockArrives(lib: RpcLibrary, env: Script, m: Moment, hash: Option<string>, height: Value, deadline: real,
                     loads: Loads, reply: Reply, v: Value)
    requires var r := BlockBy(lib, env, m, hash, height, deadline);
      r.out.Ok? && Writes(v, r.out.value.ToDict()) && Delegation.Printed(loads, reply, v)
    ensures Delegation.Payload(loads, reply).Ok?
    ensures Delegation.HostBlock(Delegation.Payload(loads, reply).value) ==
            BlockBy(lib, env, m, hash, height, deadline).out
  {
    hide BlockBy, ResolveHash, Delegation.Payload, Delegation.HostBlock, Delegation.Printed, Writes;
    BlockSound(lib, env, m, hash, height, deadline);
    Delegation.BlockRoundTrip(loads, reply, BlockBy(lib, env, m, hash, height, deadline).out.value, v);
  }

  /** A mempool summary is valid, its fee total is exact whenever the node wrote it with at most 28
      significant digits, and it arrives unchanged on the host. */
  lemma MempoolSound(f: Fields)
    requires MempoolOf(f).Ok?
    ensures MempoolOf(f).value.Valid()
    ensures var fee := Get(f, Key.total_fee);
      fee.Num? && fee.d.Dec? && (fee.d.negative ==> fee.d.coeff == 0) &&
      (Fees.Digits(fee.d.coeff) <= 28 && Fees.ETINY <= fee.d.exp &&
       (fee.d.coeff > 0 ==> Fees.Digits(fee.d.coeff) + 8 + fee.d.exp - 1 <= Fees.EMAX) ==>
         Fees.ExactSatoshis(fee.d.coeff, fee.d.exp) == Some(MempoolOf(f).value.totalFeesSatoshis))
  {
    hide Fees.Fit, Fees.Whole, Fees.Digits, AsMap;
    var fee := Get(f, Key.total_fee);
    var d := fee.d;
    assert Fees.Satoshis(d) == Fees.Satoshis(Dec(false, d.coeff, d.exp));
    if Fees.Digits(d.coeff) <= 28 && Fees.ETINY <= d.exp &&
       (d.coeff > 0 ==> Fees.Digits(d.coeff) + 8 + d.exp - 1 <= Fees.EMAX) {
      Fees.ExactUpTo28Digits(d.coeff, d.exp);
    }
  }

  lemma MempoolArrives(f: Fields, loads: Loads, reply: Reply, v: Value)
    requires MempoolOf(f).Ok? && Writes(v, MempoolOf(f).value.ToDict()) && Delegation.Printed(loads, reply, v)
    ensures Delegation.Payload(loads, reply).Ok?
    ensures Delegation.HostMempool(Delegation.Payload(loads, reply).value) == MempoolOf(f)
  {
    hide Delegation.Payload, Delegation.HostMempool, Delegation.Printed, Writes, MempoolOf;
    MempoolSound(f);
    Delegation.MempoolRoundTrip(loads, reply, MempoolOf(f).value, v);
  }

  // ----- The four lookups -----

  /** The call keeps its one deadline, and fails only with an `RpcError` or with what was raised unforeseen. */
  predicate Looks<T>(env: Script, m: Moment, timeout: TimeoutArg, r: Run<T, Event>) {
    (if timeout.Seconds? && timeout.f.Finite? && 0.0 < timeout.f.r <= 60.0
     then InTime(m, Read(env, m).now + timeout.f.r, r.at, r.events)
     else r.out == Err(if timeout.HugeInt? then OtherException else RpcError) && r.at == m && r.events == []) &&
    (r.out.Err? ==> r.out.error.IsRpc() || r.out.error == OtherException)
  }

  /** The run was one request, answered in full before the deadline, and its result was turned into
      the value returned. */
  ghost predicate AnsweredBy<T>(lib: RpcLibrary, rpc: string, reqId: string, deadline: real, r: Run<T, Event>,
                                parse: Value -> Result<T>)
  {
    exists result :: Answered(lib, rpc, [], reqId, deadline, Run(Ok(result), r.at, r.events)) && parse(result) == r.out
  }

  function MempoolFrom(v: Value): Result<MempoolSummary> {
    if v.Obj? then MempoolOf(v.fields) else Err(RpcMalformedResponseError)
  }

  /** Every run of `get_mempool` keeps its deadline, and a summary it returns is valid and comes from one
      answered request. */
  lemma GetMempoolSound(lib: RpcLibrary, env: Script, m: Moment, timeout: TimeoutArg)
    ensures var r := GetMempool(lib, env, m, timeout);
      Looks(env, m, timeout, r) && AsksOnce(r.events, "getmempoolinfo", []) &&
      (r.out.Ok? ==> GoodDeadline(timeout) && r.out.value.Valid()) &&
      (r.out.Ok? ==>
        AnsweredBy(lib, "getmempoolinfo", "bitheim-req-mempool", Read(env, m).now + timeout.f.r, r, MempoolFrom))
  {
    hide InTime, Send, MempoolOf, Answered, AsksOnce;
    if GoodDeadline(timeout) {
      var t := Read(env, m);
      var deadline := t.now + timeout.f.r;
      var r := Send(lib, env, t, "getmempoolinfo", [], "bitheim-req-mempool", deadline);
      SendSound(lib, env, t, "getmempoolinfo", [], "bitheim-req-mempool", deadline);
      SendErrors(lib, env, t, "getmempoolinfo", [], "bitheim-req-mempool", deadline);
      SendAsksOnce(lib, env, t, "getmempoolinfo", [], "bitheim-req-mempool", deadline);
      SinceEarlier(m, t, deadline, r.at, r.events);
      if r.out.Ok? {
        MempoolJudged(r.out.value);
        assert r == Run(Ok(r.out.value), r.at, r.events);
      }
    } else {
      NothingAsked("getmempoolinfo");
    }
  }

  lemma NothingAsked(rpc: string)
    ensures AsksOnce([], rpc, [])
  {
  }

  lemma MempoolJudged(v: Value)
    ensures MempoolFrom(v).Err? ==> MempoolFrom(v).error == RpcMalformedResponseError
    ensures MempoolFrom(v).Ok? ==> MempoolFrom(v).value.Valid()
  {
    hide Fees.Satoshis;
  }

  /** Every run of `get_peers` keeps its deadline, and a list it returns is canonical, made of valid peers,
      and comes from one answered request. */
  lemma GetPeersSound(lib: RpcLibrary, env: Script, m: Moment, timeout: TimeoutArg)
    ensures var r := GetPeers(lib, env, m, timeout);
      Looks(env, m, timeout, r) && AsksOnce(r.events, "getpeerinfo", []) &&
      (r.out.Ok? ==> GoodDeadline(timeout) && Increasing(r.out.value) && |r.out.value| <= 256) &&
      (r.out.Ok? ==> forall p :: p in r.out.value ==> p.Valid()) &&
      (r.out.Ok? ==>
        AnsweredBy(lib, "getpeerinfo", "bitheim-req-peers", Read(env, m).now + timeout.f.r, r, v => PeersOf(lib, v)))
  {
    hide InTime, Send, PeersOf, Answered, AsksOnce;
    if GoodDeadline(timeout) {
      var t := Read(env, m);
      var deadline := t.now + timeout.f.r;
      var r := Send(lib, env, t, "getpeerinfo", [], "bitheim-req-peers", deadline);
      SendSound(lib, env, t, "getpeerinfo", [], "bitheim-req-peers", deadline);
      SendErrors(lib, env, t, "getpeerinfo", [], "bitheim-req-peers", deadline);
      SendAsksOnce(lib, env, t, "getpeerinfo", [], "bitheim-req-peers", deadline);
      SinceEarlier(m, t, deadline, r.at, r.events);
      if r.out.Ok? {
        PeersSound(lib, r.out.value);
        PeersJudged(lib, r.out.value);
        assert r == Run(Ok(r.out.value), r.at, r.events);
      }
    } else {
      NothingAsked("getpeerinfo");
    }
  }

  lemma PeersJudged(lib: RpcLibrary, v: Value)
    ensures PeersOf(lib, v).Err? ==> PeersOf(lib, v).error == RpcMalformedResponseError
  {
  }

  /** Every run of `get_block` keeps its deadline, and a block it returns is valid, has the hash asked for if
      one was, and was complete before the deadline. */
  lemma GetBlockSound(lib: RpcLibrary, env: Script, m: Moment, hash: Option<string>, height: Value, timeout: TimeoutArg)
    ensures var r := GetBlock(lib, env, m, hash, height, timeout);
      (hash.Some? == !height.Null? ==> r == Run(Err(if timeout.HugeInt? then OtherException else RpcError), m, [])) &&
      (hash.Some? != !height.Null? ==> Looks(env, m, timeout, r)) &&
      (r.out.Ok? ==> r.out.value.Valid() && GoodDeadline(timeout) && r.at.now < Read(env, m).now + timeout.f.r) &&
      (r.out.Ok? && hash.Some? ==> r.out.value.hash == hash.value)
  {
    hide InTime, BlockBy, ResolveHash;
    if GoodDeadline(timeout) && hash.Some? != !height.Null? {
      var t := Read(env, m);
      var deadline := t.now + timeout.f.r;
      BlockSound(lib, env, t, hash, height, deadline);
      BlockErrors(lib, env, t, hash, height, deadline);
      var r := BlockBy(lib, env, t, hash, height, deadline);
      SinceEarlier(m, t, deadline, r.at, r.events);
    }
  }

  lemma BlockErrors(lib: RpcLibrary, env: Script, m: Moment, hash: Option<string>, height: Value, deadline: real)
    ensures var r := BlockBy(lib, env, m, hash, height, deadline);
      r.out.Err? ==> r.out.error.IsRpc() || r.out.error == OtherException
  {
    hide Send, BlockOf, InTime, HexMatch;
    SendErrors(lib, env, m, "getblockhash", [height], "bitheim-req-hash", deadline);
    var resolved := ResolveHash(lib, env, m, hash, height, deadline);
    if resolved.out.Ok? && IsHexMatch(Value.Text(resolved.out.value)) {
      var wanted := resolved.out.value.s;
      SendErrors(lib, env, resolved.at, "getblock", [FromText(wanted), Int(1)], "bitheim-req-block", deadline);
      var r := Send(lib, env, resolved.at, "getblock", [FromText(wanted), Int(1)], "bitheim-req-block", deadline);
      if r.out.Ok? && r.out.value.Obj? {
        BlockJudged(r.out.value.fields);
      }
    }
  }

  lemma BlockJudged(f: Fields)
    ensures BlockOf(f).Err? ==> BlockOf(f).error == RpcMalformedResponseError
  {
  }

  /** Every run of `get_node_overview` keeps its deadline, and an overview it returns is valid and was complete
      before the deadline. Besides `RpcError`s and what was raised unforeseen a `ValueError` gets out, exactly
      when a good answer carries a lone surrogate. */
  lemma GetNodeOverviewSound(lib: RpcLibrary, env: Script, m: Moment, timeout: TimeoutArg)
    ensures var r := GetNodeOverview(lib, env, m, timeout);
      (r.out != Err(ValueError) ==> Looks(env, m, timeout, r)) &&
      (r.out.Ok? ==> GoodDeadline(timeout) && r.out.value.Valid() && r.at.now < Read(env, m).now + timeout.f.r) &&
      (r.out == Err(ValueError) ==> GoodDeadline(timeout)) &&
      (GoodDeadline(timeout) ==>
        var (t, deadline) := (Read(env, m), Read(env, m).now + timeout.f.r);
        var net := Send(lib, env, t, "getnetworkinfo", [], "bitheim-req-1", deadline);
        var chain := Send(lib, env, net.at, "getblockchaininfo", [], "bitheim-req-2", deadline);
        InTime(m, deadline, r.at, r.events) &&
        (r.out == Err(ValueError) <==> net.out.Ok? && OverviewEscapes(net.out.value, Received(chain))))
  {
    hide InTime, OverviewBy, Send, OverviewEscapes;
    if GoodDeadline(timeout) {
      var t := Read(env, m);
      var deadline := t.now + timeout.f.r;
      OverviewSound(lib, env, t, deadline);
      OverviewEscapesIff(lib, env, t, deadline);
      var r := OverviewBy(lib, env, t, deadline);
      SinceEarlier(m, t, deadline, r.at, r.events);
    }
  }

  lemma UnsentUnlessSerializable(lib: RpcLibrary, env: Script, m: Moment, rpc: string, params: seq<Value>,
                                 reqId: string, deadline: real)
    requires AllowedMethod(rpc) && !Serializable(params)
    ensures var r := Send(lib, env, m, rpc, params, reqId, deadline);
      r.events == [] && r.out.Err? &&
      r.out.error in {RpcTimeoutError, RpcAuthenticationError, RpcMalformedResponseError}
  {
    hide InTime, Exchange, AllowedMethod, Serializable;
  }

  /** A block asked for by a height that is too long to be written out is never asked for: nothing is sent. */
  lemma HugeHeightUnsent(lib: RpcLibrary, env: Script, m: Moment, height: Value, timeout: TimeoutArg)
    requires IsNat(height) && Unprintable(height.i)
    ensures var r := GetBlock(lib, env, m, None, height, timeout);
      r.events == [] && r.out.Err? &&
      (GoodDeadline(timeout) ==>
        r.out.error in {RpcTimeoutError, RpcAuthenticationError, RpcMalformedResponseError})
  {
    hide InTime, Send, Unprintable, AllowedMethod;
    if GoodDeadline(timeout) {
      var t := Read(env, m);
      assert height in [height];
      AllowedLookup();
      UnsentUnlessSerializable(lib, env, t, "getblockhash", [height], "bitheim-req-hash", t.now + timeout.f.r);
    }
  }

  lemma AllowedLookup()
    ensures AllowedMethod("getblockhash")
  {
  }

  // ----- How long -----

  lemma {:induction false} DrainEnds(env: Script, m: Moment, deadline: real, got: Bytes)
    requires |got| <= MAX_RESPONSE && Instant(env)
    ensures var r := Drain(env, m, deadline, got);
      Honoured(r.events) ==> r.at.now <= Later(m.now, deadline)
    decreases MAX_RESPONSE - |got|
  {
    hide InTime, ReadOnce, Honoured;
    var t := Read(env, m);
    var left := deadline - t.now;
    if left <= 0.0 {
    } else {
      var one := ReadOnce(env, t, deadline, left);
      ReadEnds(env, t, deadline, left);
      if one.out.Ok? && one.out.value != [] && |got| + |one.out.value| <= MAX_RESPONSE {
        DrainEnds(env, one.at, deadline, got + one.out.value);
        HonouredParts(one.events, Drain(env, one.at, deadline, got + one.out.value).events);
      }
    }
  }

  lemma ReadEnds(env: Script, t: Moment, deadline: real, left: real)
    requires 0.0 < left == deadline - t.now && Instant(env)
    ensures Honoured(ReadOnce(env, t, deadline, left).events) ==> ReadOnce(env, t, deadline, left).at.now <= deadline
  {
    var r := ReadOnce(env, t, deadline, left);
    assert r.events[0] in r.events;
  }

  lemma AfterOpenEnds(lib: RpcLibrary, env: Script, m: Moment, reply: OpenReply, reqId: string, deadline: real)
    requires Instant(env)
    ensures var r := AfterOpen(lib, env, m, reply, reqId, deadline);
      Honoured(r.events) ==> r.at.now <= Later(m.now, deadline)
  {
    hide Drain, ParseBody, Honoured, InTime;
    DrainEnds(env, m, deadline, []);
  }

  lemma ExchangeEnds(lib: RpcLibrary, env: Script, t: Moment, rpc: string, params: seq<Value>, reqId: string,
                     deadline: real)
    requires t.now < deadline && Instant(env)
    ensures var r := Exchange(lib, env, t, rpc, params, reqId, deadline);
      Honoured(r.events) ==> r.at.now <= deadline
  {
    hide AfterOpen, InTime;
    var tick := env(t.step);
    var done := After(t, tick.lasts);
    var rest := AfterOpen(lib, env, done, tick.open, reqId, deadline);
    var sent := [Request(rpc, params, deadline - t.now, t.now, done.now)];
    AfterOpenEnds(lib, env, done, tick.open, reqId, deadline);
    HonouredParts(sent, rest.events);
    assert sent[0] in sent;
  }

  lemma SendEnds(lib: RpcLibrary, env: Script, m: Moment, rpc: string, params: seq<Value>, reqId: string,
                 deadline: real)
    requires Instant(env)
    ensures var r := Send(lib, env, m, rpc, params, reqId, deadline);
      Honoured(r.events) ==> r.at.now <= Later(m.now, deadline)
  {
    hide Exchange, InTime, Honoured, AllowedMethod, Serializable;
    var u := Read(env, Read(env, Read(env, m)));
    if u.now < deadline {
      ExchangeEnds(lib, env, u, rpc, params, reqId, deadline);
    }
  }

  lemma OverviewEnds(lib: RpcLibrary, env: Script, m: Moment, deadline: real)
    requires Instant(env)
    ensures var r := OverviewBy(lib, env, m, deadline);
      Honoured(r.events) ==> r.at.now <= Later(m.now, deadline)
  {
    hide Send, JudgeNetwork, JudgeChain, OverviewOf, InTime, Honoured;
    var net := Send(lib, env, m, "getnetworkinfo", [], "bitheim-req-1", deadline);
    SendEnds(lib, env, m, "getnetworkinfo", [], "bitheim-req-1", deadline);
    SendEnds(lib, env, net.at, "getblockchaininfo", [], "bitheim-req-2", deadline);
    HonouredParts(net.events, Send(lib, env, net.at, "getblockchaininfo", [], "bitheim-req-2", deadline).events);
  }

  lemma BlockEnds(lib: RpcLibrary, env: Script, m: Moment, hash: Option<string>, height: Value, deadline: real)
    requires Instant(env)
    ensures var r := BlockBy(lib, env, m, hash, height, deadline);
      Honoured(r.events) ==> r.at.now <= Later(m.now, deadline)
  {
    hide Send, JudgeBlock, InTime, HexMatch, Honoured;
    SendEnds(lib, env, m, "getblockhash", [height], "bitheim-req-hash", deadline);
    var resolved := ResolveHash(lib, env, m, hash, height, deadline);
    if resolved.out.Ok? && IsHexMatch(Value.Text(resolved.out.value)) {
      var wanted := resolved.out.value.s;
      SendEnds(lib, env, resolved.at, "getblock", [FromText(wanted), Int(1)], "bitheim-req-block", deadline);
      var r := Send(lib, env, resolved.at, "getblock", [FromText(wanted), Int(1)], "bitheim-req-block", deadline);
      HonouredParts(resolved.events, r.events);
    }
  }

  /** A call that started at `m` is over within its timeout, at once if that is bad. */
  predicate EndsWithin<T>(m: Moment, timeout: TimeoutArg, r: Run<T, Event>) {
    r.at.now <= m.now + if GoodDeadline(timeout) then timeout.f.r else 0.0
  }

  /** With instant local work, and opens and reads that honour their timeouts, each of the four lookups is over
      within its timeout, however many requests it makes. */
  lemma LookupsEnd(lib: RpcLibrary, env: Script, m: Moment, hash: Option<string>, height: Value, timeout: TimeoutArg)
    requires Instant(env)
    ensures var r := GetNodeOverview(lib, env, m, timeout); Honoured(r.events) ==> EndsWithin(m, timeout, r)
    ensures var r := GetBlock(lib, env, m, hash, height, timeout); Honoured(r.events) ==> EndsWithin(m, timeout, r)
    ensures var r := GetMempool(lib, env, m, timeout); Honoured(r.events) ==> EndsWithin(m, timeout, r)
    ensures var r := GetPeers(lib, env, m, timeout); Honoured(r.events) ==> EndsWithin(m, timeout, r)
  {
    hide Send, OverviewBy, BlockBy, MempoolOf, PeersOf, Honoured, InTime;
    if GoodDeadline(timeout) {
      var t := Read(env, m);
      var deadline := t.now + timeout.f.r;
      OverviewEnds(lib, env, t, deadline);
      BlockEnds(lib, env, t, hash, height, deadline);
      SendEnds(lib, env, t, "getmempoolinfo", [], "bitheim-req-mempool", deadline);
      SendEnds(lib, env, t, "getpeerinfo", [], "bitheim-req-peers", deadline);
    }
  }
}
