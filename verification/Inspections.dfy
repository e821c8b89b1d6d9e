/** What every run of `inspect_node`, `inspect_block`, `inspect_mempool` and `inspect_peers` keeps, and
    how it can end. */
module Inspections {
  import opened Outcome
  import opened Json
  import opened Domain
  import opened Process
  import opened Runs
  import opened World
  import opened Containers
  import opened AdapterSpec
  import opened AdapterSafety
  import opened Peers
  import Delegation
  import ErrorEnvelope
  import opened ScriptedRuns
  import Cidr
  import Fees
  import opened HostReading
  import opened Observations

  /** The call mutates nothing, keeps its one deadline, lets `RuntimeUnavailableError` out exactly when it
      lost sight of the node, and something unforeseen exactly when a command raised it or the timeout
      is too large for a float. */
  ghost predicate Observes<T(!new)>(cfg: Config, env: Script, m: Moment, timeout: TimeoutArg, r: Run<T, Event>) {
    ReadOnly(cfg, r.events) &&
    (if timeout.Seconds? && timeout.f.Finite? && 0.0 < timeout.f.r <= 60.0
     then InTime(env, m, Read(env, m).now + timeout.f.r, r.at, r.events)
     else r.out == Err(if timeout.HugeInt? then OtherException else RpcError) && r.at == m && r.events == []) &&
    (r.out == Err(RuntimeUnavailableError) <==> LostSight(cfg, r.events)) &&
    (r.out == Err(OtherException) <==> timeout.HugeInt? || SomethingRaised(r.events))
  }

  /** The last command was a delegated inspection that exited with code 0. */
  predicate RanDelegated(node: string, kind: string, args: seq<string>, es: seq<Event>) {
    |es| == 4 && Succeeded(es[3]) && es[3].cmd == RunInspect(node, kind, args)
  }

  lemma DelegatedRaises(cfg: Config, env: Script, m: Moment, node: string, deadline: real, kind: string,
                        args: seq<string>)
    ensures var r := DelegatedInspection(cfg, env, m, node, deadline, kind, args);
      r.out == Err(OtherException) <==> SomethingRaised(r.events)
  {
    hide ErrorEnvelope.HostFailure, LoadsUnique, InTime;
    var run := Issue(env, m, deadline, RunInspect(node, kind, args), RpcTimeoutError);
    if run.out.Ok? {
      assert run.events == [run.events[0]];
      if run.out.value.Exited? {
        ErrorEnvelope.HostFailureIsRpc(cfg.lib.loads, run.out.value.err);
      }
    }
  }

  lemma InspectByRaises(cfg: Config, env: Script, t: Moment, node: string, deadline: real, kind: string,
                        args: seq<string>)
    ensures var r := InspectBy(cfg, env, t, node, deadline, kind, args);
      r.out == Err(OtherException) <==> SomethingRaised(r.events)
  {
    hide Look, DelegatedInspection, PsState, SomethingRaised;
    LookOutcome(cfg, env, t, node, deadline);
    var look := Look(cfg, env, t, node, deadline);
    if look.out.Ok? {
      DelegatedRaises(cfg, env, look.at, node, deadline, kind, args);
      RaisedJoined(look.events, DelegatedInspection(cfg, env, look.at, node, deadline, kind, args).events);
    }
  }

  /** An inspection up to its payload. */
  lemma InspectObserves(cfg: Config, env: Script, m: Moment, node: string, timeout: TimeoutArg, kind: string,
                        args: seq<string>)
    ensures var r := Inspect(cfg, env, m, node, timeout, kind, args);
      Observes(cfg, env, m, timeout, r) && (r.out.Ok? ==> RanDelegated(node, kind, args, r.events)) &&
      (r.out.Err? ==> r.out.error.IsRpc() || r.out.error in {RuntimeUnavailableError, OtherException})
  {
    hide InspectBy, ReadOnly, LostSight, DelegateShape, InTime;
    InspectIsReadOnly(cfg, env, m, node, timeout, kind, args);
    InspectRaisesIff(cfg, env, m, node, timeout, kind, args);
    InspectDelegates(cfg, env, m, node, timeout, kind, args);
    if GoodDeadline(timeout) {
      var t := Read(env, m);
      InspectByRaises(cfg, env, t, node, t.now + timeout.f.r, kind, args);
      InspectByErrors(cfg, env, t, node, t.now + timeout.f.r, kind, args);
    }
  }

  lemma InspectDelegates(cfg: Config, env: Script, m: Moment, node: string, timeout: TimeoutArg, kind: string,
                         args: seq<string>)
    ensures var r := Inspect(cfg, env, m, node, timeout, kind, args);
      r.out.Ok? ==> RanDelegated(node, kind, args, r.events)
  {
    hide Inspect, LookShape;
    InspectShape(cfg, env, m, node, timeout, kind, args);
  }

  lemma InspectByErrors(cfg: Config, env: Script, t: Moment, node: string, deadline: real, kind: string,
                        args: seq<string>)
    ensures var r := InspectBy(cfg, env, t, node, deadline, kind, args);
      r.out.Err? ==> r.out.error.IsRpc() || r.out.error in {RuntimeUnavailableError, OtherException}
  {
    hide Look, DelegatedInspection, PsState;
    LookOutcome(cfg, env, t, node, deadline);
    DelegatedInspectionRaises(cfg, env, Look(cfg, env, t, node, deadline).at, node, deadline, kind, args);
  }

  /** Parsing the payload adds no error of its own to those two. */
  lemma FinishObserves<T(!new)>(cfg: Config, env: Script, m: Moment, timeout: TimeoutArg, r: Run<Fields, Event>,
                                parse: Fields -> Result<T>)
    requires Observes(cfg, env, m, timeout, r)
    requires r.out.Ok? && parse(r.out.value).Err? ==>
      parse(r.out.value).error !in {RuntimeUnavailableError, OtherException}
    ensures Observes(cfg, env, m, timeout, Finish(r, parse))
  {
    hide ReadOnly, LostSight, InTime, SomethingRaised;
  }

  /** Every run of `inspect_node` ends in a valid overview or an `RpcError`, or lets out one of the two
      above, or a `ValueError`: that exactly when the payload holds a lone surrogate as subversion, or is
      right but for a hash that is not 64 lower-case digits. */
  lemma InspectNodeOutcomes(cfg: Config, env: Script, m: Moment, node: string, timeout: TimeoutArg)
    ensures var r := InspectNode(cfg, env, m, node, timeout);
      var payload := Inspect(cfg, env, m, node, timeout, "node", []).out;
      Observes(cfg, env, m, timeout, r) &&
      (r.out == Err(ValueError) <==> payload.Ok? && Delegation.HostEscapes(payload.value)) &&
      (r.out.Ok? ==> r.out.value.Valid() && RanDelegated(node, "node", [], r.events)) &&
      (r.out.Err? ==> r.out.error.IsRpc() || r.out.error in {RuntimeUnavailableError, OtherException, ValueError})
  {
    hide Inspect, Observes, RanDelegated, Delegation.HostOverview, Delegation.HostEscapes;
    InspectObserves(cfg, env, m, node, timeout, "node", []);
    var r := Inspect(cfg, env, m, node, timeout, "node", []);
    if r.out.Ok? {
      Delegation.OverviewTotal(r.out.value);
    }
    FinishObserves(cfg, env, m, timeout, r, f => Delegation.HostOverview(f));
  }

  /** Every run of `inspect_mempool` ends in a valid summary or an `RpcError`, or lets out one of the two. */
  lemma InspectMempoolOutcomes(cfg: Config, env: Script, m: Moment, node: string, timeout: TimeoutArg)
    ensures var r := InspectMempool(cfg, env, m, node, timeout);
      Observes(cfg, env, m, timeout, r) &&
      (r.out.Ok? ==> r.out.value.Valid() && RanDelegated(node, "mempool", [], r.events)) &&
      (r.out.Err? ==> r.out.error.IsRpc() || r.out.error in {RuntimeUnavailableError, OtherException})
  {
    hide Inspect, Observes, RanDelegated, Delegation.HostMempool;
    InspectObserves(cfg, env, m, node, timeout, "mempool", []);
    var r := Inspect(cfg, env, m, node, timeout, "mempool", []);
    if r.out.Ok? {
      Delegation.OthersTotal(r.out.value);
    }
    FinishObserves(cfg, env, m, timeout, r, f => Delegation.HostMempool(f));
  }

  /** Every run of `inspect_peers` ends in a canonical list of valid peers or an `RpcError`, or lets out one
      of the two. */
  lemma InspectPeersOutcomes(cfg: Config, env: Script, m: Moment, node: string, timeout: TimeoutArg)
    ensures var r := InspectPeers(cfg, env, m, node, timeout);
      Observes(cfg, env, m, timeout, r) &&
      (r.out.Ok? ==> RanDelegated(node, "peers", [], r.events) && Increasing(r.out.value) && |r.out.value| <= 256) &&
      (r.out.Ok? ==> forall p :: p in r.out.value ==> p.Valid()) &&
      (r.out.Err? ==> r.out.error.IsRpc() || r.out.error in {RuntimeUnavailableError, OtherException})
  {
    hide Inspect, Observes, RanDelegated, Delegation.HostPeers;
    InspectObserves(cfg, env, m, node, timeout, "peers", []);
    var r := Inspect(cfg, env, m, node, timeout, "peers", []);
    if r.out.Ok? {
      Delegation.OthersTotal(r.out.value);
    }
    FinishObserves(cfg, env, m, timeout, r, f => Delegation.HostPeers(f));
  }

  /** The look alone, which ends in the given error or in one of its own. */
  lemma LookOnlyObserves(cfg: Config, env: Script, m: Moment, node: string, timeout: TimeoutArg, failure: Failure)
    requires GoodDeadline(timeout) && failure !in {RpcUnavailableError, RuntimeUnavailableError, OtherException}
    ensures var r := LookOnly(cfg, env, m, node, timeout.f.r, failure);
      Observes(cfg, env, m, timeout, r) && r.out.Err? &&
      (r.out == Err(failure) <==> |r.events| == 3 && SawRunning(cfg, r.events[2])) &&
      r.out.error in {failure, RpcUnavailableError, RuntimeUnavailableError, OtherException}
  {
    hide Look, InTime, PsState, LostSight, SomethingRaised;
    var t := Read(env, m);
    LookOutcome(cfg, env, t, node, t.now + timeout.f.r);
  }

  /** The height asked for has too many digits to be written out. */
  predicate HugeHeight(hash: Value, height: Value) {
    hash.Null? && IsNat(height) && |Cidr.Decimal(height.i)| > 4300
  }

  /** Every run of `inspect_block` ends in a valid block or an `RpcError`, or lets out one of the two, or a
      `ValueError`: that exactly when the height is too long to be written out and the node was seen in a
      state other than STOPPED. Unless exactly one well-formed way to find the block is given it ends
      before any command. */
  lemma InspectBlockOutcomes(cfg: Config, env: Script, m: Moment, node: string, hash: Value, height: Value,
                             timeout: TimeoutArg)
    ensures var r := InspectBlock(cfg, env, m, node, hash, height, timeout);
      (GoodBlockQuery(hash, height) ==> Observes(cfg, env, m, timeout, r)) &&
      (!GoodBlockQuery(hash, height) ==>
        r == Run(Err(if timeout.HugeInt? then OtherException else RpcError), m, [])) &&
      (r.out == Err(ValueError) <==>
        HugeHeight(hash, height) && |r.events| == 3 && SawRunning(cfg, r.events[2])) &&
      (r.out.Ok? ==> GoodBlockQuery(hash, height) && r.out.value.Valid()) &&
      (r.out.Ok? ==> RanDelegated(node, "block",
        if height.Null? then ["--hash", hash.t.s] else ["--height", Cidr.Decimal(height.i)], r.events)) &&
      (r.out.Err? ==> r.out.error.IsRpc() || r.out.error in {RuntimeUnavailableError, OtherException, ValueError})
  {
    hide Inspect, Observes, RanDelegated, Delegation.HostBlock, LookOnly, Cidr.Decimal, SawRunning;
    if GoodDeadline(timeout) && GoodBlockQuery(hash, height) {
      var args := BlockQueryArgs(hash, height);
      if args.Err? {
        LookOnlyObserves(cfg, env, m, node, timeout, args.error);
      } else {
        InspectObserves(cfg, env, m, node, timeout, "block", args.value);
        var r := Inspect(cfg, env, m, node, timeout, "block", args.value);
        if r.out.Ok? {
          Delegation.OthersTotal(r.out.value);
        }
        FinishObserves(cfg, env, m, timeout, r, f => Delegation.HostBlock(f));
      }
    } else if GoodBlockQuery(hash, height) {
      RefusedObserves<BlockSummary>(cfg, env, m, timeout);
    }
  }

  lemma RefusedObserves<T(!new)>(cfg: Config, env: Script, m: Moment, timeout: TimeoutArg)
    requires !GoodDeadline(timeout)
    ensures Observes<T>(cfg, env, m, timeout, Run(Err(Refusal(timeout, RpcError)), m, []))
  {
  }

  /** A block may be asked for by 64 lower-case digits or by a height, and by one of them alone. */
  lemma BlockQueryRule(hash: Value, height: Value)
    ensures GoodBlockQuery(hash, height) <==>
      (hash == Null && height.Int? && height.i >= 0) ||
      (height == Null && hash.Text? && hash.t.Str? && Digits64(hash.t.s, "0123456789abcdef"))
  {
    if hash.Text? && hash.t.Str? {
      HashRules(hash.t.s);
    }
  }

  // ----- What is returned -----

  /** The members of the payload that the last of four commands printed. */
  function Told(cfg: Config, es: seq<Event>): Option<Fields> {
    if |es| == 4 && es[3].Ran? then PayloadMembers(cfg.lib.loads, es[3].reply) else None
  }

  /** The payload is there exactly when the delegated command printed one, and these are its members. */
  lemma InspectPayloadIff(cfg: Config, env: Script, m: Moment, node: string, timeout: TimeoutArg, kind: string,
                          args: seq<string>, f: Fields)
    ensures var r := Inspect(cfg, env, m, node, timeout, kind, args);
      DelegateShape(cfg, node, RunInspect(node, kind, args), r.events) &&
      (r.out == Ok(f) <==> Told(cfg, r.events) == Some(f))
  {
    hide Inspect, PayloadMembers, PsState, SomethingRaised, AtRest, ShowsRunning, Delegation.Payload;
    InspectShape(cfg, env, m, node, timeout, kind, args);
    if GoodDeadline(timeout) {
      InspectTold(cfg, env, m, node, timeout, kind, args);
      var es := Inspect(cfg, env, m, node, timeout, kind, args).events;
      PayloadToldIff(cfg, RunInspect(node, kind, args), node, es, f);
    }
  }

  lemma PayloadToldIff(cfg: Config, cmd: Cmd, node: string, es: seq<Event>, f: Fields)
    requires DelegateShape(cfg, node, cmd, es)
    ensures PayloadTold(cfg, es) == Ok(f) <==> Told(cfg, es) == Some(f)
  {
    hide PayloadMembers, PsState, SomethingRaised, AtRest, ShowsRunning, Delegation.Payload;
    if |es| == 4 {
      assert es == es[..3] + [es[3]];
      RaisedJoined(es[..3], [es[3]]);
      RaisedPayload(cfg, es[3]);
      LookWell(cfg, node, es[..3]);
      ObservedShows(cfg, es[2]);
      PayloadExact(cfg.lib.loads, es[3].reply);
      OnlyGoodPayload(cfg.lib.loads, es[3].reply);
    }
  }

  lemma OnlyGoodPayload(loads: Loads, reply: Reply)
    ensures PayloadMembers(loads, reply).Some? ==> reply.Exited? && reply.code == 0
  {
  }

  /** `inspect_node` returns an overview exactly when the last of its four commands printed a payload that stands for
      it, and it is valid. */
  lemma InspectNodeIff(cfg: Config, env: Script, m: Moment, node: string, timeout: TimeoutArg, o: NodeOverview)
    ensures var r := InspectNode(cfg, env, m, node, timeout);
      DelegateShape(cfg, node, RunInspect(node, "node", []), r.events) &&
      (r.out == Ok(o) <==> Told(cfg, r.events).Some? && OverviewShown(Told(cfg, r.events).value, o) && o.Valid())
  {
    hide Inspect, DelegateShape, Told, OverviewShown, Delegation.HostOverview;
    var payload := Inspect(cfg, env, m, node, timeout, "node", []);
    InspectPayloadIff(cfg, env, m, node, timeout, "node", [], MembersOf(payload.out));
    InspectPayloadIff(cfg, env, m, node, timeout, "node", [], MembersTold(Told(cfg, payload.events)));
    HostOverviewIff(MembersOf(payload.out), o);
  }

  function MembersOf(out: Result<Fields>): Fields { if out.Ok? then out.value else [] }

  function MembersTold(f: Option<Fields>): Fields { if f.Some? then f.value else [] }

  lemma InspectMempoolIff(cfg: Config, env: Script, m: Moment, node: string, timeout: TimeoutArg, s: MempoolSummary)
    ensures var r := InspectMempool(cfg, env, m, node, timeout);
      DelegateShape(cfg, node, RunInspect(node, "mempool", []), r.events) &&
      (r.out == Ok(s) <==> Told(cfg, r.events).Some? && MempoolShown(Told(cfg, r.events).value, s) && s.Valid())
  {
    hide Inspect, DelegateShape, Told, MempoolShown, Delegation.HostMempool;
    var payload := Inspect(cfg, env, m, node, timeout, "mempool", []);
    InspectPayloadIff(cfg, env, m, node, timeout, "mempool", [], MembersOf(payload.out));
    InspectPayloadIff(cfg, env, m, node, timeout, "mempool", [], MembersTold(Told(cfg, payload.events)));
    HostMempoolIff(MembersOf(payload.out), s);
  }

  /** The payload's list of peers stands for these, once they are put in increasing order. */
  ghost predicate ListShown(f: Fields, t: seq<PeerSummary>) {
    Get(f, Key.peers).Arr? && |Get(f, Key.peers).items| <= 256 && Increasing(t) &&
    exists ps: seq<PeerSummary> :: multiset(ps) == multiset(t) && AllShown(Get(f, Key.peers).items, ps)
  }

  lemma InspectPeersIff(cfg: Config, env: Script, m: Moment, node: string, timeout: TimeoutArg, t: seq<PeerSummary>)
    ensures var r := InspectPeers(cfg, env, m, node, timeout);
      DelegateShape(cfg, node, RunInspect(node, "peers", []), r.events) &&
      (r.out == Ok(t) <==> Told(cfg, r.events).Some? && ListShown(Told(cfg, r.events).value, t))
  {
    hide Inspect, DelegateShape, Told, Delegation.HostPeers;
    var payload := Inspect(cfg, env, m, node, timeout, "peers", []);
    InspectPayloadIff(cfg, env, m, node, timeout, "peers", [], MembersOf(payload.out));
    InspectPayloadIff(cfg, env, m, node, timeout, "peers", [], MembersTold(Told(cfg, payload.events)));
    HostPeersIff(MembersOf(payload.out), t);
  }

  /** Likewise `inspect_block`, whose command names the hash or the height that was asked for. */
  lemma InspectBlockIff(cfg: Config, env: Script, m: Moment, node: string, hash: Value, height: Value,
                        timeout: TimeoutArg, b: BlockSummary)
    requires GoodBlockQuery(hash, height) && !HugeHeight(hash, height)
    ensures var r := InspectBlock(cfg, env, m, node, hash, height, timeout);
      var args := if height.Null? then ["--hash", hash.t.s] else ["--height", Cidr.Decimal(height.i)];
      DelegateShape(cfg, node, RunInspect(node, "block", args), r.events) &&
      (r.out == Ok(b) <==> Told(cfg, r.events).Some? && BlockShown(Told(cfg, r.events).value, b) && b.Valid())
  {
    hide Inspect, DelegateShape, Told, BlockShown, Delegation.HostBlock, Cidr.Decimal;
    var args := BlockQueryArgs(hash, height).value;
    var payload := Inspect(cfg, env, m, node, timeout, "block", args);
    InspectPayloadIff(cfg, env, m, node, timeout, "block", args, MembersOf(payload.out));
    InspectPayloadIff(cfg, env, m, node, timeout, "block", args, MembersTold(Told(cfg, payload.events)));
    HostBlockIff(MembersOf(payload.out), b);
  }

  // ----- A height that is too long -----

  lemma {:induction false} TenPowerLength(n: nat)
    ensures |Cidr.Decimal(Fees.Pow10(n))| == n + 1
  {
    if n == 0 {
    } else {
      TenPowerLength(n - 1);
      assert Fees.Pow10(n) / 10 == Fees.Pow10(n - 1);
    }
  }

  /** A node whose `ps` prints "x", with commands that take no time. */
  function RunningScript(): (env: Script)
    ensures forall n: nat :: env(n) == Tick(0.0, 0.0, Exited(0, if n == 8 then "x" else "", ""), true)
  {
    n => Tick(0.0, 0.0, Exited(0, if n == 8 then "x" else "", ""), true)
  }

  lemma RunningLook(cfg: Config, node: string)
    requires cfg.lib.loads("x") == None
    ensures Look(cfg, RunningScript(), Moment(0.0, 1), node, 10.0).out.Ok?
  {
    hide InTime, StateBy, CheckRuntime;
    var env := RunningScript();
    LiveRuntime(env, Moment(0.0, 1), 10.0);
    var rt := CheckRuntime(env, Moment(0.0, 1), 10.0);
    UnreadableState(cfg, env, rt.at, node, 10.0);
  }

  /** A height of 4301 digits passes the checks of `inspect_block` and lets a `ValueError` out. */
  lemma HugeHeightEscapes(cfg: Config, node: string)
    requires cfg.lib.loads("x") == None
    ensures GoodBlockQuery(Null, Int(Fees.Pow10(4300)))
    ensures InspectBlock(cfg, RunningScript(), Moment(0.0, 0), node, Null, Int(Fees.Pow10(4300)),
                         Seconds(Finite(10.0))).out == Err(ValueError)
  {
    hide InTime, Look, Inspect, Fees.Pow10, Cidr.Decimal;
    TenPowerLength(4300);
    RunningLook(cfg, node);
  }
}
