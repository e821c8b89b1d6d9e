/** From the node to the caller on the host: what an inspection returns when the container it ran printed
    what the client returned, or the error it raised. */
module EndToEnd {
  import opened Outcome
  import opened Json
  import opened Process
  import opened Runs
  import opened World
  import opened Health
  import opened Containers
  import opened AdapterSpec
  import opened AdapterSafety
  import opened Delegation
  import opened ErrorEnvelope
  import Text
  import RpcWorld
  import RpcSpec
  import RpcSafety

  /** The fourth command of an inspection is the delegated one, and its reply decides the outcome. */
  lemma InspectReplied(cfg: Config, env: Script, m: Moment, node: string, timeout: TimeoutArg, kind: string,
                       args: seq<string>)
    ensures var r := Inspect(cfg, env, m, node, timeout, kind, args);
      |r.events| == 4 ==> r.events[3].Ran? && r.out == Payload(cfg.lib.loads, r.events[3].reply)
  {
    hide Look, PsState, DelegatedInspection, Payload, InTime;
    if GoodDeadline(timeout) {
      var t := Read(env, m);
      var deadline := t.now + timeout.f.r;
      LookOutcome(cfg, env, t, node, deadline);
      var look := Look(cfg, env, t, node, deadline);
      DelegatedReplied(cfg, env, look.at, node, deadline, kind, args);
    }
  }

  lemma DelegatedReplied(cfg: Config, env: Script, m: Moment, node: string, deadline: real, kind: string,
                         args: seq<string>)
    ensures var r := DelegatedInspection(cfg, env, m, node, deadline, kind, args);
      |r.events| <= 1 &&
      (r.events != [] ==> r.events[0].Ran? && r.out == Payload(cfg.lib.loads, r.events[0].reply))
  {
    hide Payload, InTime;
  }

  /** A host inspection whose delegated command printed the peers that `get_peers` returned in the container
      returns those peers. */
  lemma PeersEndToEnd(cfg: Config, env: Script, m: Moment, node: string, timeout: TimeoutArg,
                      lib: RpcSpec.RpcLibrary, list: Value, items: seq<Value>)
    requires var r := InspectPeers(cfg, env, m, node, timeout);
      |r.events| == 4 && r.events[3].Ran? && Printed(cfg.lib.loads, r.events[3].reply, PeersJson(items))
    requires RpcSpec.PeersOf(lib, list).Ok? && PrintedPeers(RpcSpec.PeersOf(lib, list).value, items)
    ensures InspectPeers(cfg, env, m, node, timeout).out == RpcSpec.PeersOf(lib, list)
  {
    hide Inspect, Payload, HostPeers, RpcSpec.PeersOf, Printed, PrintedPeers;
    InspectReplied(cfg, env, m, node, timeout, "peers", []);
    var reply := Inspect(cfg, env, m, node, timeout, "peers", []).events[3].reply;
    RpcSafety.PeersArrive(lib, list, cfg.lib.loads, reply, items);
  }

  /** So does one whose command printed a mempool summary. */
  lemma MempoolEndToEnd(cfg: Config, env: Script, m: Moment, node: string, timeout: TimeoutArg, f: Fields, v: Value)
    requires var r := InspectMempool(cfg, env, m, node, timeout);
      |r.events| == 4 && r.events[3].Ran? && Printed(cfg.lib.loads, r.events[3].reply, v)
    requires RpcSpec.MempoolOf(f).Ok? && Writes(v, RpcSpec.MempoolOf(f).value.ToDict())
    ensures InspectMempool(cfg, env, m, node, timeout).out == RpcSpec.MempoolOf(f)
  {
    hide Inspect, Payload, HostMempool, RpcSpec.MempoolOf, Printed, Writes;
    InspectReplied(cfg, env, m, node, timeout, "mempool", []);
    var reply := Inspect(cfg, env, m, node, timeout, "mempool", []).events[3].reply;
    RpcSafety.MempoolArrives(f, cfg.lib.loads, reply, v);
  }

  /** So does one whose command printed the overview of a run of the client. */
  lemma OverviewEndToEnd(cfg: Config, env: Script, m: Moment, node: string, timeout: TimeoutArg, v: Value,
                         lib: RpcSpec.RpcLibrary, inside: RpcWorld.Script, start: Moment, deadline: real)
    requires var r := InspectNode(cfg, env, m, node, timeout);
      |r.events| == 4 && r.events[3].Ran? && Printed(cfg.lib.loads, r.events[3].reply, v)
    requires var o := RpcSpec.OverviewBy(lib, inside, start, deadline).out; o.Ok? && Writes(v, o.value.ToDict())
    ensures InspectNode(cfg, env, m, node, timeout).out == RpcSpec.OverviewBy(lib, inside, start, deadline).out
  {
    hide Inspect, Payload, HostOverview, RpcSpec.OverviewBy, Printed, Writes;
    InspectReplied(cfg, env, m, node, timeout, "node", []);
    var reply := Inspect(cfg, env, m, node, timeout, "node", []).events[3].reply;
    RpcSafety.OverviewArrives(lib, inside, start, deadline, cfg.lib.loads, reply, v);
  }

  /** So does one whose command printed the block of a run of the client. */
  lemma BlockEndToEnd(cfg: Config, env: Script, m: Moment, node: string, hash: Value, height: Value,
                      timeout: TimeoutArg, v: Value, lib: RpcSpec.RpcLibrary, inside: RpcWorld.Script, start: Moment,
                      asked: Option<string>, at: Value, deadline: real)
    requires var r := InspectBlock(cfg, env, m, node, hash, height, timeout);
      |r.events| == 4 && r.events[3].Ran? && Printed(cfg.lib.loads, r.events[3].reply, v)
    requires var b := RpcSpec.BlockBy(lib, inside, start, asked, at, deadline).out; b.Ok? && Writes(v, b.value.ToDict())
    ensures InspectBlock(cfg, env, m, node, hash, height, timeout).out ==
            RpcSpec.BlockBy(lib, inside, start, asked, at, deadline).out
  {
    hide Inspect, Look, PsState, Payload, HostBlock, RpcSpec.BlockBy, Printed, Writes, GoodBlockQuery, BlockQueryArgs;
    assert GoodDeadline(timeout) && GoodBlockQuery(hash, height);
    var args := BlockQueryArgs(hash, height);
    var t := Read(env, m);
    LookOutcome(cfg, env, t, node, t.now + timeout.f.r);
    InspectReplied(cfg, env, m, node, timeout, "block", args.value);
    var reply := Inspect(cfg, env, m, node, timeout, "block", args.value).events[3].reply;
    RpcSafety.BlockArrives(lib, inside, start, asked, at, deadline, cfg.lib.loads, reply, v);
  }

  /** An inspection whose delegated command failed as `main` lets it fail ends in the image of that failure if
      its stderr is legible, and in `RpcUnavailableError` otherwise. */
  lemma ErrorEndToEnd(cfg: Config, env: Script, m: Moment, node: string, timeout: TimeoutArg, kind: string,
                      args: seq<string>, dumps: map<Key, Value> -> string, e: Failure, message: string)
    requires DumpsEnvelopes(cfg.lib.loads, dumps)
    requires var r := Inspect(cfg, env, m, node, timeout, kind, args);
      |r.events| == 4 && r.events[3].Ran? && r.events[3].reply.Exited? && r.events[3].reply.code != 0 &&
      r.events[3].reply.err == HostStderr(dumps, e, message)
    ensures Inspect(cfg, env, m, node, timeout, kind, args).out ==
            Err(if Legible(dumps, e, message) then Image(e) else RpcUnavailableError)
  {
    hide Inspect, HostFailure, DumpsEnvelopes, Legible, HostStderr;
    InspectReplied(cfg, env, m, node, timeout, kind, args);
    CategoryRoundTrip(cfg.lib.loads, dumps, e, message);
  }

  /** A probe whose delegated command printed the health that the probe in the container found returns it. */
  lemma HealthEndToEnd(cfg: Config, env: Script, m: Moment, node: string, timeout: real, timeoutPositive: bool,
                       cookieReadable: bool, first: Http, second: Http, nodeId: string, v: Value)
    requires var r := ProbeHealth(cfg, env, m, node, timeout);
      |r.events| == 4 && r.events[3].Ran? && r.events[3].reply.Exited? && r.events[3].reply.code == 0 &&
      PrintsFound(cfg.lib, r.events[3].reply.out, timeoutPositive, cookieReadable, first, second, nodeId, v)
    ensures var r := ProbeHealth(cfg, env, m, node, timeout);
      r.out.Ok? && SameHealth(r.out.value, Probe(cfg.lib.show, timeoutPositive, cookieReadable, first, second).value)
  {
    hide ProbeHealth, Probe, HostHealth, SameHealth;
    ProbeReplied(cfg, env, m, node, timeout);
    var out := ProbeHealth(cfg, env, m, node, timeout).events[3].reply.out;
    ProbeSurvives(cfg.lib, timeoutPositive, cookieReadable, first, second, out, nodeId, v);
  }

  /** The text is `status --json` of a health that the probe found. */
  predicate PrintsFound(lib: Library, out: string, timeoutPositive: bool, cookieReadable: bool, first: Http,
                        second: Http, nodeId: string, v: Value)
  {
    var p := Probe(lib.show, timeoutPositive, cookieReadable, first, second);
    p.Ok? && lib.loads(Text.Strip(out)) == Some(v) && Text.Strip(out) != "" &&
    PrintsStatus(v, nodeId, p.value.state, p.value)
  }

  lemma ProbeReplied(cfg: Config, env: Script, m: Moment, node: string, timeout: real)
    ensures var r := ProbeHealth(cfg, env, m, node, timeout);
      |r.events| == 4 && r.events[3].Ran? && r.events[3].reply.Exited? && r.events[3].reply.code == 0 ==>
        r.out == Ok(HostHealth(cfg.lib, r.events[3].reply.out))
  {
    hide CheckRuntime, StateBy, PsState, DelegatedProbe, InTime, HostHealth;
    if timeout > 0.0 {
      var t := Read(env, m);
      var deadline := t.now + timeout;
      RuntimeShape(env, t, deadline);
      var rt := CheckRuntime(env, t, deadline);
      StateHasShape(cfg, env, rt.at, node, deadline);
      var pre := StateBy(cfg, env, rt.at, node, deadline);
      ReportReplied(cfg, env, pre.at, node, deadline);
    }
  }

  lemma ReportReplied(cfg: Config, env: Script, m: Moment, node: string, deadline: real)
    ensures var r := DelegatedProbe(cfg, env, m, node, deadline);
      |r.events| <= 1 && (r.events != [] ==> r.events[0].Ran?) &&
      (r.events != [] && r.events[0].reply.Exited? && r.events[0].reply.code == 0 ==>
        r.out == Ok(HostHealth(cfg.lib, r.events[0].reply.out)))
  {
    hide InTime, HostHealth;
  }
}
