/** The lifecycle adapter's operations as functions of the world: what each returns, when it
    ends, and the commands it runs, for every script of the clock and of Docker's answers. */
module AdapterSpec {
  import opened Outcome
  import opened Text
  import opened Json
  import opened Domain
  import opened Process
  import opened Cidr
  import opened Runs
  import opened World
  import opened Health
  import opened Containers
  import Delegation

  /** Where an image could be built from. */
  datatype BuildContext = NoContext | WithoutDockerfile | WithDockerfile

  datatype Config = Config(
    lib: Library, subnet: string, bitcoinImage: string, bitheimImage: string,
    bitcoinContext: BuildContext, bitheimContext: BuildContext)

  datatype NodeStatus = NodeStatus(nodeId: string, state: LifecycleState, health: NodeHealth)

  /** Success on exit code 0; any other end of the process is `failure`, and an exception
      the caller does not catch passes through. */
  function Expect(reply: Reply, failure: Failure): Result<()> {
    match reply
    case Exited(code, _, _) => if code == 0 then Ok(()) else Err(failure)
    case TimedOut => Err(failure)
    case OsFailure => Err(failure)
    case Raised => Err(OtherException)
  }

  // ----- Preflight checks -----

  /** `_check_docker_runtime_available` */
  function CheckRuntime(env: Script, m: Moment, deadline: real): (r: Run<(), Event>)
    ensures InTime(env, m, deadline, r.at, r.events)
  {
    hide InTime;
    var t := Read(env, m);
    IdleInTime(env, m, deadline);
    if !env(m.step).found then Run(Err(RuntimeUnavailableError), t, [])
    else
      var info := Issue(env, t, deadline, DockerInfo, RuntimeUnavailableError);
      AfterRead(env, m, deadline, info.at, info.events);
      if info.out.Err? then Failed(info)
      else Run(Expect(info.out.value, RuntimeUnavailableError), info.at, info.events)
  }

  function ProjectNetwork(node: string): string { node + "_bitheim-net" }

  /** The inner loop over one network's subnets. */
  function CheckSubnets(lib: Library, target: Network, subnets: seq<string>): Result<()> {
    if subnets == [] then Ok(())
    else
      var existing := lib.network(subnets[0]);
      if existing.None? then Err(LifecycleError)
      else if Overlaps(target, existing.value) then Err(LifecycleError)
      else CheckSubnets(lib, target, subnets[1..])
  }

  function JudgeInspection(lib: Library, target: Network, reply: Reply): Result<()> {
    if reply.Exited? && reply.code == 0 then CheckSubnets(lib, target, Words(reply.out))
    else Expect(reply, RuntimeUnavailableError)
  }

  function InspectNetwork(lib: Library, env: Script, m: Moment, deadline: real, target: Network, name: string)
    : (r: Run<(), Event>)
    ensures InTime(env, m, deadline, r.at, r.events)
  {
    hide InTime;
    var one := Issue(env, m, deadline, NetworkInspect(name), RuntimeUnavailableError);
    if one.out.Err? then Failed(one)
    else Run(JudgeInspection(lib, target, one.out.value), one.at, one.events)
  }

  /** The outer loop over the listed networks. */
  function ScanNetworks(lib: Library, env: Script, m: Moment, deadline: real, target: Network,
                        own: string, names: seq<string>): (r: Run<(), Event>)
    ensures InTime(env, m, deadline, r.at, r.events)
    decreases |names|
  {
    hide InTime, InspectNetwork;
    IdleInTime(env, m, deadline);
    if names == [] then Run(Ok(()), m, [])
    else if names[0] == own then ScanNetworks(lib, env, m, deadline, target, own, names[1..])
    else
      var one := InspectNetwork(lib, env, m, deadline, target, names[0]);
      if one.out.Err? then one
      else
        var rest := ScanNetworks(lib, env, one.at, deadline, target, own, names[1..]);
        Sequel(env, m, deadline, one.at, one.events, rest.at, rest.events);
        Then(one, rest)
  }

  /** `[n.strip() for n in stdout.splitlines() if n.strip()]` */
  function NetworkNames(out: string): seq<string> { StripAll(SplitLines(out)) }

  /** `_check_subnet_collision` */
  function CheckCollision(cfg: Config, env: Script, m: Moment, node: string, deadline: real): (r: Run<(), Event>)
    ensures InTime(env, m, deadline, r.at, r.events)
  {
    hide InTime;
    IdleInTime(env, m, deadline);
    var target := cfg.lib.network(cfg.subnet);
    if target.None? then Run(Err(LifecycleError), m, [])
    else
      var list := Issue(env, m, deadline, NetworkList, RuntimeUnavailableError);
      if list.out.Err? then Failed(list)
      else
        var listed := Expect(list.out.value, RuntimeUnavailableError);
        if listed.Err? then Run(listed, list.at, list.events)
        else
          var scan := ScanNetworks(cfg.lib, env, list.at, deadline, target.value, ProjectNetwork(node),
                                   NetworkNames(list.out.value.out));
          Sequel(env, m, deadline, list.at, list.events, scan.at, scan.events);
          Then(list, scan)
  }

  predicate SaysNotFound(err: string) {
    HasPart(Lower(err), "no such image") || HasPart(Lower(err), "not found")
  }

  /** The inspection positively reports that the image does not exist. */
  predicate ImageMissing(reply: Reply) {
    reply.Exited? && reply.code != 0 && SaysNotFound(reply.err)
  }

  /** `_ensure_image_available` */
  function EnsureImage(env: Script, m: Moment, image: string, context: BuildContext, deadline: real)
    : (r: Run<(), Event>)
    ensures InTime(env, m, deadline, r.at, r.events)
  {
    hide InTime;
    var insp := Issue(env, m, deadline, ImageInspect(image), RuntimeUnavailableError);
    if insp.out.Err? then Failed(insp)
    else if !ImageMissing(insp.out.value) then
      Run(Expect(insp.out.value, RuntimeUnavailableError), insp.at, insp.events)
    else if !context.WithDockerfile? then Run(Err(RuntimeUnavailableError), insp.at, insp.events)
    else
      var build := Issue(env, insp.at, deadline, ImageBuild(image), RuntimeUnavailableError);
      Sequel(env, m, deadline, insp.at, insp.events, build.at, build.events);
      if build.out.Err? then Then(insp, Failed<Reply, (), Event>(build))
      else Then(insp, Run(Expect(build.out.value, RuntimeUnavailableError), build.at, build.events))
  }

  // ----- start -----

  function UpOutcome(reply: Reply): Result<()> {
    match reply
    case Exited(code, _, _) => if code == 0 then Ok(()) else Err(LifecycleError)
    case TimedOut => Err(StartupTimeoutError)
    case OsFailure => Err(RuntimeUnavailableError)
    case Raised => Err(OtherException)
  }

  function Up(env: Script, m: Moment, node: string, deadline: real): (r: Run<(), Event>)
    ensures InTime(env, m, deadline, r.at, r.events)
  {
    hide InTime;
    var up := Issue(env, m, deadline, ComposeUp(node), StartupTimeoutError);
    if up.out.Err? then Failed(up) else Run(UpOutcome(up.out.value), up.at, up.events)
  }

  /** The steps of `start` from its `k`-th on: daemon, networks, two images, `up`. */
  function StartFrom(k: nat, cfg: Config, env: Script, m: Moment, node: string, deadline: real): (r: Run<(), Event>)
    requires k <= 4
    ensures InTime(env, m, deadline, r.at, r.events)
    decreases 4 - k
  {
    hide InTime;
    if k == 4 then Up(env, m, node, deadline)
    else
      var step := StartStep(k, cfg, env, m, node, deadline);
      if step.out.Err? then step
      else
        var rest := StartFrom(k + 1, cfg, env, step.at, node, deadline);
        Sequel(env, m, deadline, step.at, step.events, rest.at, rest.events);
        Then(step, rest)
  }

  function StartStep(k: nat, cfg: Config, env: Script, m: Moment, node: string, deadline: real): (r: Run<(), Event>)
    requires k < 4
    ensures InTime(env, m, deadline, r.at, r.events)
  {
    hide InTime;
    match k
    case 0 => CheckRuntime(env, m, deadline)
    case 1 => CheckCollision(cfg, env, m, node, deadline)
    case 2 => EnsureImage(env, m, cfg.bitcoinImage, cfg.bitcoinContext, deadline)
    case _ => EnsureImage(env, m, cfg.bitheimImage, cfg.bitheimContext, deadline)
  }

  /** `start(node_id, timeout)` */
  function Start(cfg: Config, env: Script, m: Moment, node: string, timeout: real): (r: Run<(), Event>)
    ensures InTime(env, m, Read(env, m).now + timeout, r.at, r.events)
  {
    hide InTime, StartFrom;
    var t := Read(env, m);
    var r := StartFrom(0, cfg, env, t, node, t.now + timeout);
    AfterRead(env, m, t.now + timeout, r.at, r.events);
    r
  }

  // ----- Lifecycle state -----

  function PsOutcome(lib: Library, reply: Reply): Result<LifecycleState> {
    if reply.Exited? && reply.code == 0 then Ok(PsState(lib.loads, reply.out))
    else
      var e := Expect(reply, RuntimeUnavailableError);
      if e.Err? then Err(e.error) else assert false; Err(OtherException)
  }

  /** `_get_lifecycle_state_deadline` */
  function StateBy(cfg: Config, env: Script, m: Moment, node: string, deadline: real): (r: Run<LifecycleState, Event>)
    ensures InTime(env, m, deadline, r.at, r.events)
  {
    hide InTime;
    var rt := CheckRuntime(env, m, deadline);
    if rt.out.Err? then Failed(rt)
    else
      var ps := Issue(env, rt.at, deadline, ComposePs(node), RuntimeUnavailableError);
      Sequel(env, m, deadline, rt.at, rt.events, ps.at, ps.events);
      if ps.out.Err? then Then(rt, Failed<Reply, LifecycleState, Event>(ps))
      else Then(rt, Run(PsOutcome(cfg.lib, ps.out.value), ps.at, ps.events))
  }

  /** `get_lifecycle_state(node_id)`: ten seconds. */
  function GetState(cfg: Config, env: Script, m: Moment, node: string): (r: Run<LifecycleState, Event>)
    ensures InTime(env, m, Read(env, m).now + 10.0, r.at, r.events)
  {
    hide InTime, StateBy;
    var t := Read(env, m);
    var r := StateBy(cfg, env, t, node, t.now + 10.0);
    AfterRead(env, m, t.now + 10.0, r.at, r.events);
    r
  }

  // ----- stop -----

  function StopOutcome(reply: Reply): Result<()> {
    match reply
    case Exited(code, _, _) => if code == 0 then Ok(()) else Err(LifecycleError)
    case TimedOut => Err(ShutdownTimeoutError)
    case OsFailure => Err(RuntimeUnavailableError)
    case Raised => Err(OtherException)
  }

  function Grace(left: real): (g: int)
    ensures g >= 1
    ensures left >= 1.0 ==> g as real <= left < (g + 1) as real
    ensures left < 1.0 ==> g == 1
  {
    if left.Floor < 1 then 1 else left.Floor
  }

  /** `compose stop` and the second look, once a stop is known to be needed. */
  function StopAndCheck(cfg: Config, env: Script, m: Moment, node: string, deadline: real): (r: Run<(), Event>)
    ensures InTime(env, m, deadline, r.at, r.events)
  {
    hide InTime;
    var t := Read(env, m);
    IdleInTime(env, m, deadline);
    if deadline - t.now <= 0.0 then Run(Err(ShutdownTimeoutError), t, [])
    else
      var halt := Issue(env, t, deadline, ComposeStop(node, Grace(deadline - t.now)), ShutdownTimeoutError);
      AfterRead(env, m, deadline, halt.at, halt.events);
      if halt.out.Err? then Failed(halt)
      else
        var halted := StopOutcome(halt.out.value);
        if halted.Err? then Run(halted, halt.at, halt.events)
        else
          var post := StateBy(cfg, env, halt.at, node, deadline);
          Sequel(env, m, deadline, halt.at, halt.events, post.at, post.events);
          if post.out.Err? then Then(halt, Failed<LifecycleState, (), Event>(post))
          else
            Then(halt, Run(if post.out.value.STOPPED? then Ok(()) else Err(ShutdownTimeoutError), post.at, post.events))
  }

  function StopBy(cfg: Config, env: Script, m: Moment, node: string, deadline: real): (r: Run<(), Event>)
    ensures InTime(env, m, deadline, r.at, r.events)
  {
    hide InTime;
    var rt := CheckRuntime(env, m, deadline);
    if rt.out.Err? then rt
    else
      var pre := StateBy(cfg, env, rt.at, node, deadline);
      Sequel(env, m, deadline, rt.at, rt.events, pre.at, pre.events);
      var seen := Then(rt, pre);
      if pre.out.Err? then Failed(seen)
      else if pre.out.value.STOPPED? then Run(Ok(()), seen.at, seen.events)
      else
        var rest := StopAndCheck(cfg, env, pre.at, node, deadline);
        Sequel(env, m, deadline, seen.at, seen.events, rest.at, rest.events);
        Then(seen, rest)
  }

  /** `stop(node_id, timeout)` */
  function Stop(cfg: Config, env: Script, m: Moment, node: string, timeout: real): (r: Run<(), Event>)
    ensures InTime(env, m, Read(env, m).now + timeout, r.at, r.events)
  {
    hide InTime, StopBy;
    var t := Read(env, m);
    var r := StopBy(cfg, env, t, node, t.now + timeout);
    AfterRead(env, m, t.now + timeout, r.at, r.events);
    r
  }

  // ----- probe_health, get_status -----

  function HealthOutcome(lib: Library, reply: Reply): Result<NodeHealth> {
    match reply
    case Exited(code, out, err) =>
      if code == 0 then Ok(HostHealth(lib, out))
      else if HasPart(Lower(err), "no such service") || HasPart(Lower(err), "not found")
      then Ok(Bare(UNHEALTHY, "bitheim_service_unavailable"))
      else Ok(Bare(UNHEALTHY, "delegated_probe_failed"))
    case TimedOut => Ok(Bare(UNKNOWN, "probe_failed"))
    case OsFailure => Ok(Bare(UNKNOWN, "probe_failed"))
    case Raised => Err(OtherException)
  }

  function DelegatedProbe(cfg: Config, env: Script, m: Moment, node: string, deadline: real)
    : (r: Run<NodeHealth, Event>)
    ensures InTime(env, m, deadline, r.at, r.events)
  {
    hide InTime;
    var run := Issue(env, m, deadline, RunStatus(node), StartupTimeoutError);
    if run.out.Err? then Run(Ok(Bare(UNKNOWN, "timeout_expired")), run.at, run.events)
    else Run(HealthOutcome(cfg.lib, run.out.value), run.at, run.events)
  }

  function ProbeBy(cfg: Config, env: Script, m: Moment, node: string, deadline: real): (r: Run<NodeHealth, Event>)
    ensures InTime(env, m, deadline, r.at, r.events)
  {
    hide InTime;
    var rt := CheckRuntime(env, m, deadline);
    if rt.out == Err(RuntimeUnavailableError) then Run(Ok(Bare(UNKNOWN, "runtime_unavailable")), rt.at, rt.events)
    else if rt.out.Err? then Failed(rt)
    else
      var pre := StateBy(cfg, env, rt.at, node, deadline);
      Sequel(env, m, deadline, rt.at, rt.events, pre.at, pre.events);
      var seen := Then(rt, pre);
      if pre.out.Err? then Failed(seen)
      else if pre.out.value.STOPPED? then Run(Ok(Bare(STOPPED, "node_stopped")), seen.at, seen.events)
      else
        var probe := DelegatedProbe(cfg, env, pre.at, node, deadline);
        Sequel(env, m, deadline, seen.at, seen.events, probe.at, probe.events);
        Then(seen, probe)
  }

  /** `probe_health(node_id, timeout)` */
  function ProbeHealth(cfg: Config, env: Script, m: Moment, node: string, timeout: real): (r: Run<NodeHealth, Event>)
    ensures InTime(env, m, Read(env, m).now + timeout, r.at, r.events)
  {
    hide InTime, ProbeBy;
    IdleInTime(env, m, Read(env, m).now + timeout);
    if timeout <= 0.0 then Run(Ok(Bare(UNKNOWN, "timeout_expired")), m, [])
    else
      var t := Read(env, m);
      var r := ProbeBy(cfg, env, t, node, t.now + timeout);
      AfterRead(env, m, t.now + timeout, r.at, r.events);
      r
  }

  /** `get_status(node_id)`: a state check of ten seconds, then a probe of five. */
  function GetStatus(cfg: Config, env: Script, m: Moment, node: string): (r: Run<NodeStatus, Event>)
    ensures r.at.now >= m.now
  {
    var st := GetState(cfg, env, m, node);
    if st.out.Err? then Failed(st)
    else if st.out.value.STOPPED? then
      Run(Ok(NodeStatus(node, STOPPED, Bare(STOPPED, "node_stopped"))), st.at, st.events)
    else
      var probe := ProbeHealth(cfg, env, st.at, node, 5.0);
      if probe.out.Err? then Then(st, Failed<NodeHealth, NodeStatus, Event>(probe))
      else
        var shown := if st.out.value.UNKNOWN? then UNKNOWN else probe.out.value.state;
        Then(st, Run(Ok(NodeStatus(node, shown, probe.out.value)), probe.at, probe.events))
  }

  // ----- inspect_node, inspect_block, inspect_mempool, inspect_peers -----

  /** `_run_delegated_inspection` */
  function DelegatedInspection(cfg: Config, env: Script, m: Moment, node: string, deadline: real, kind: string,
                               args: seq<string>): (r: Run<Fields, Event>)
    ensures InTime(env, m, deadline, r.at, r.events)
  {
    hide InTime;
    var run := Issue(env, m, deadline, RunInspect(node, kind, args), RpcTimeoutError);
    if run.out.Err? then Failed(run)
    else Run(Delegation.Payload(cfg.lib.loads, run.out.value), run.at, run.events)
  }

  /** The look at the node with which every inspection begins; it is good when the node was seen in a
      state other than STOPPED. */
  function Look(cfg: Config, env: Script, m: Moment, node: string, deadline: real): (r: Run<(), Event>)
    ensures InTime(env, m, deadline, r.at, r.events)
  {
    hide InTime;
    var rt := CheckRuntime(env, m, deadline);
    if rt.out == Err(RuntimeUnavailableError) then Run(Err(RpcUnavailableError), rt.at, rt.events)
    else if rt.out.Err? then rt
    else
      var pre := StateBy(cfg, env, rt.at, node, deadline);
      Sequel(env, m, deadline, rt.at, rt.events, pre.at, pre.events);
      var seen := Then(rt, pre);
      if pre.out.Err? then Failed(seen)
      else Run(if pre.out.value.STOPPED? then Err(RpcUnavailableError) else Ok(()), seen.at, seen.events)
  }

  function InspectBy(cfg: Config, env: Script, m: Moment, node: string, deadline: real, kind: string,
                     args: seq<string>): (r: Run<Fields, Event>)
    ensures InTime(env, m, deadline, r.at, r.events)
  {
    hide InTime;
    var look := Look(cfg, env, m, node, deadline);
    if look.out.Err? then Failed(look)
    else
      var run := DelegatedInspection(cfg, env, look.at, node, deadline, kind, args);
      Sequel(env, m, deadline, look.at, look.events, run.at, run.events);
      Then(look, run)
  }

  /** A caller's `timeout` argument: a number, an integer beyond the range of floats, or something else. */
  datatype TimeoutArg = Seconds(f: Float) | HugeInt | NotANumber

  /** Positive, finite, at most sixty seconds. */
  predicate GoodDeadline(t: TimeoutArg) {
    t.Seconds? && t.f.Finite? && 0.0 < t.f.r <= 60.0
  }

  /** What a bad timeout raises: the given error, but the `OverflowError` of `float` for a huge integer. */
  function Refusal(t: TimeoutArg, usual: Failure): Failure { if t.HugeInt? then OtherException else usual }

  function Inspect(cfg: Config, env: Script, m: Moment, node: string, timeout: TimeoutArg, kind: string,
                   args: seq<string>): (r: Run<Fields, Event>)
    ensures GoodDeadline(timeout) ==> InTime(env, m, Read(env, m).now + timeout.f.r, r.at, r.events)
    ensures !GoodDeadline(timeout) ==> r == Run(Err(Refusal(timeout, RpcError)), m, [])
  {
    hide InTime, InspectBy;
    if !GoodDeadline(timeout) then Run(Err(Refusal(timeout, RpcError)), m, [])
    else
      var t := Read(env, m);
      var r := InspectBy(cfg, env, t, node, t.now + timeout.f.r, kind, args);
      AfterRead(env, m, t.now + timeout.f.r, r.at, r.events);
      r
  }

  /** The parsing that follows a delegated inspection. */
  function Finish<T>(r: Run<Fields, Event>, parse: Fields -> Result<T>): Run<T, Event> {
    if r.out.Err? then Failed(r) else Run(parse(r.out.value), r.at, r.events)
  }

  function InspectNode(cfg: Config, env: Script, m: Moment, node: string, timeout: TimeoutArg)
    : Run<NodeOverview, Event>
  {
    Finish(Inspect(cfg, env, m, node, timeout, "node", []), f => Delegation.HostOverview(f))
  }

  function InspectMempool(cfg: Config, env: Script, m: Moment, node: string, timeout: TimeoutArg)
    : Run<MempoolSummary, Event>
  {
    Finish(Inspect(cfg, env, m, node, timeout, "mempool", []), f => Delegation.HostMempool(f))
  }

  function InspectPeers(cfg: Config, env: Script, m: Moment, node: string, timeout: TimeoutArg)
    : Run<seq<PeerSummary>, Event>
  {
    Finish(Inspect(cfg, env, m, node, timeout, "peers", []), f => Delegation.HostPeers(f))
  }

  /** The block a caller asks for; each argument may be absent or of the wrong type. */
  predicate GoodBlockQuery(hash: Value, height: Value) {
    (hash.Null? && IsNat(height)) || (height.Null? && IsHexMatch(hash))
  }

  /** The command-line arguments; a height of too many digits cannot be turned into one. */
  function BlockQueryArgs(hash: Value, height: Value): Result<seq<string>>
    requires GoodBlockQuery(hash, height)
  {
    if height.Null? then Ok(["--hash", hash.t.s])
    else if Unprintable(height.i) then Err(ValueError)
    else Ok(["--height", Cidr.Decimal(height.i)])
  }

  /** The look alone, as far as an inspection gets whose arguments cannot be built. */
  function LookOnly(cfg: Config, env: Script, m: Moment, node: string, timeout: real, failure: Failure)
    : (r: Run<BlockSummary, Event>)
    ensures InTime(env, m, Read(env, m).now + timeout, r.at, r.events)
  {
    hide InTime, Look;
    var t := Read(env, m);
    var look := Look(cfg, env, t, node, t.now + timeout);
    AfterRead(env, m, t.now + timeout, look.at, look.events);
    Run(Err(if look.out.Err? then look.out.error else failure), look.at, look.events)
  }

  function InspectBlock(cfg: Config, env: Script, m: Moment, node: string, hash: Value, height: Value,
                        timeout: TimeoutArg): Run<BlockSummary, Event> {
    if !GoodDeadline(timeout) then Run(Err(Refusal(timeout, RpcError)), m, [])
    else if !GoodBlockQuery(hash, height) then Run(Err(RpcError), m, [])
    else
      var args := BlockQueryArgs(hash, height);
      if args.Err? then LookOnly(cfg, env, m, node, timeout.f.r, args.error)
      else Finish(Inspect(cfg, env, m, node, timeout, "block", args.value), f => Delegation.HostBlock(f))
  }
}
