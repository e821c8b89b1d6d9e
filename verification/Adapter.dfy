/** The lifecycle adapter as the program that runs: it reads a clock, dispatches commands one
    after another, and leaves a record. Every method does exactly what AdapterSpec says. */
module Adapter {
  import opened Outcome
  import opened Text
  import opened Json
  import opened Domain
  import opened Process
  import opened Cidr
  import opened Runs
  import opened World
  import opened Health
  import opened Containers
  import opened AdapterSpec
  import Delegation

  /** The machine the adapter runs on. */
  class Machine {
    const env: Script
    var moment: Moment
    var trace: seq<Event>

    constructor (env: Script, start: Moment)
      ensures this.env == env && moment == start && trace == []
    {
      this.env := env;
      moment, trace := start, [];
    }

    /** `time.monotonic()` */
    method Monotonic() returns (now: real)
      modifies this
      ensures moment == Read(env, old(moment)) && now == moment.now && trace == old(trace)
    {
      moment := Read(env, moment);
      now := moment.now;
    }

    /** `shutil.which(docker)` */
    method Which() returns (found: bool)
      modifies this
      ensures moment == Read(env, old(moment)) && found == env(old(moment).step).found && trace == old(trace)
    {
      found := env(moment.step).found;
      moment := Read(env, moment);
    }

    /** `subprocess.run(command, timeout=budget)` */
    method Execute(cmd: Cmd, budget: real) returns (reply: Reply)
      modifies this
      ensures var tick := env(old(moment).step);
        reply == tick.reply && moment == After(old(moment), tick.lasts) &&
        trace == old(trace) + [Ran(cmd, budget, old(moment).now, moment.now, reply)]
    {
      var tick := env(moment.step);
      var began := moment.now;
      moment := After(moment, tick.lasts);
      reply := tick.reply;
      trace := trace + [Ran(cmd, budget, began, moment.now, reply)];
    }

    /** `time.sleep(amount)`: never shorter than asked. */
    method Sleep(amount: real)
      modifies this
      ensures var tick := env(old(moment).step);
        moment == Moment(old(moment).now + amount + tick.lasts, old(moment).step + 1) &&
        trace == old(trace) + [Slept(amount, old(moment).now, moment.now)]
    {
      var tick := env(moment.step);
      var began := moment.now;
      moment := Moment(began + amount + tick.lasts, moment.step + 1);
      trace := trace + [Slept(amount, began, moment.now)];
    }

    /** Notes that a probe is about to be dispatched. */
    method Note(budget: real)
      modifies this`trace
      ensures trace == old(trace) + [Probing(moment.now, budget)]
    {
      trace := trace + [Probing(moment.now, budget)];
    }
  }

  /** The machine is where the run ends, and has added the run's events to the record it had before. */
  ghost predicate Did<T>(machine: Machine, before: seq<Event>, out: Result<T>, r: Run<T, Event>)
    reads machine
  {
    out == r.out && machine.moment == r.at && machine.trace == before + r.events
  }

  class ComposeAdapter {
    const cfg: Config
    const machine: Machine

    constructor (cfg: Config, machine: Machine)
      ensures this.cfg == cfg && this.machine == machine
    {
      this.cfg, this.machine := cfg, machine;
    }

    /** `_remaining(deadline)` */
    method Remaining(deadline: real) returns (left: real)
      modifies machine
      ensures machine.moment == Read(machine.env, old(machine.moment)) && machine.trace == old(machine.trace)
      ensures left == deadline - machine.moment.now
    {
      var now := machine.Monotonic();
      left := deadline - now;
    }

    method CheckRuntimeAvailable(deadline: real) returns (out: Result<()>)
      modifies machine
      ensures Did(machine, old(machine.trace), out, CheckRuntime(machine.env, old(machine.moment), deadline))
    {
      var found := machine.Which();
      if !found {
        return Err(RuntimeUnavailableError);
      }
      var r := Remaining(deadline);
      if r <= 0.0 {
        return Err(RuntimeUnavailableError);
      }
      var reply := machine.Execute(DockerInfo, r);
      out := Expect(reply, RuntimeUnavailableError);
    }

    /** The subnets of one network, compared one by one with the target. */
    method CompareSubnets(target: Network, subnets: seq<string>) returns (out: Result<()>)
      ensures out == CheckSubnets(cfg.lib, target, subnets)
    {
      for n := 0 to |subnets|
        invariant CheckSubnets(cfg.lib, target, subnets) == CheckSubnets(cfg.lib, target, subnets[n..])
      {
        assert subnets[n..][1..] == subnets[n + 1..];
        var existing := cfg.lib.network(subnets[n]);
        if existing.None? {
          return Err(LifecycleError);
        }
        if Overlaps(target, existing.value) {
          return Err(LifecycleError);
        }
      }
      out := Ok(());
    }

    /** The inspection of one listed network. */
    method InspectOne(target: Network, name: string, deadline: real) returns (out: Result<()>)
      modifies machine
      ensures Did(machine, old(machine.trace), out,
        InspectNetwork(cfg.lib, machine.env, old(machine.moment), deadline, target, name))
    {
      hide InTime, Words, CheckSubnets;
      var r := Remaining(deadline);
      if r <= 0.0 {
        return Err(RuntimeUnavailableError);
      }
      var reply := machine.Execute(NetworkInspect(name), r);
      if !reply.Exited? || reply.code != 0 {
        out := Expect(reply, RuntimeUnavailableError);
        return;
      }
      out := CompareSubnets(target, Words(reply.out));
    }

    /** One turn of the loop: the project's own network is passed over. */
    method TakeTurn(target: Network, own: string, name: string, deadline: real) returns (out: Result<()>)
      modifies machine
      ensures Did(machine, old(machine.trace), out,
        Turn(cfg.lib, machine.env, old(machine.moment), deadline, target, own, name))
    {
      hide InspectNetwork;
      if name == own {
        return Ok(());
      }
      out := InspectOne(target, name, deadline);
    }

    /** The loop over the listed networks. */
    method InspectNetworks(target: Network, own: string, names: seq<string>, deadline: real) returns (out: Result<()>)
      modifies machine
      ensures Did(machine, old(machine.trace), out,
        ScanNetworks(cfg.lib, machine.env, old(machine.moment), deadline, target, own, names))
    {
      hide InTime, Turn, ScanNetworks;
      ghost var whole := ScanNetworks(cfg.lib, machine.env, machine.moment, deadline, target, own, names);
      ghost var done: seq<Event> := [];
      assert names[0..] == names;
      for n := 0 to |names|
        invariant machine.trace == old(machine.trace) + done
        invariant var rest := ScanNetworks(cfg.lib, machine.env, machine.moment, deadline, target, own, names[n..]);
          whole == Run(rest.out, rest.at, done + rest.events)
      {
        ScanUnfolds(cfg.lib, machine.env, machine.moment, deadline, target, own, names, n);
        ghost var one := Turn(cfg.lib, machine.env, machine.moment, deadline, target, own, names[n]);
        out := TakeTurn(target, own, names[n], deadline);
        done := done + one.events;
        if out.Err? {
          return;
        }
      }
      ScanUnfolds(cfg.lib, machine.env, machine.moment, deadline, target, own, names, |names|);
      out := Ok(());
    }

    method CheckSubnetCollision(node: string, deadline: real) returns (out: Result<()>)
      modifies machine
      ensures Did(machine, old(machine.trace), out,
        CheckCollision(cfg, machine.env, old(machine.moment), node, deadline))
    {
      hide InTime, NetworkNames, ScanNetworks;
      var target := cfg.lib.network(cfg.subnet);
      if target.None? {
        return Err(LifecycleError);
      }
      var r := Remaining(deadline);
      if r <= 0.0 {
        return Err(RuntimeUnavailableError);
      }
      var reply := machine.Execute(NetworkList, r);
      out := Expect(reply, RuntimeUnavailableError);
      if out.Err? {
        return;
      }
      out := InspectNetworks(target.value, ProjectNetwork(node), NetworkNames(reply.out), deadline);
    }

    method EnsureImageAvailable(image: string, context: BuildContext, deadline: real) returns (out: Result<()>)
      modifies machine
      ensures Did(machine, old(machine.trace), out,
        EnsureImage(machine.env, old(machine.moment), image, context, deadline))
    {
      hide InTime, SaysNotFound;
      var r := Remaining(deadline);
      if r <= 0.0 {
        return Err(RuntimeUnavailableError);
      }
      var reply := machine.Execute(ImageInspect(image), r);
      if !ImageMissing(reply) {
        out := Expect(reply, RuntimeUnavailableError);
        return;
      }
      if !context.WithDockerfile? {
        return Err(RuntimeUnavailableError);
      }
      r := Remaining(deadline);
      if r <= 0.0 {
        return Err(RuntimeUnavailableError);
      }
      reply := machine.Execute(ImageBuild(image), r);
      out := Expect(reply, RuntimeUnavailableError);
    }

    method Start(node: string, timeout: real) returns (out: Result<()>)
      modifies machine
      ensures Did(machine, old(machine.trace), out,
        AdapterSpec.Start(cfg, machine.env, old(machine.moment), node, timeout))
    {
      hide InTime, CheckRuntime, CheckCollision, StartFrom;
      var now := machine.Monotonic();
      var deadline := now + timeout;
      StartUnfolds(0, cfg, machine.env, machine.moment, node, deadline);
      out := CheckRuntimeAvailable(deadline);
      if out.Err? {
        return;
      }
      StartUnfolds(1, cfg, machine.env, machine.moment, node, deadline);
      out := CheckSubnetCollision(node, deadline);
      if out.Err? {
        return;
      }
      out := StartWithImages(node, deadline);
    }

    /** The rest of `start`: both images, then `up`. */
    method StartWithImages(node: string, deadline: real) returns (out: Result<()>)
      modifies machine
      ensures Did(machine, old(machine.trace), out, StartFrom(2, cfg, machine.env, old(machine.moment), node, deadline))
    {
      hide InTime, EnsureImage, Up, StartFrom;
      StartUnfolds(2, cfg, machine.env, machine.moment, node, deadline);
      out := EnsureImageAvailable(cfg.bitcoinImage, cfg.bitcoinContext, deadline);
      if out.Err? {
        return;
      }
      StartUnfolds(3, cfg, machine.env, machine.moment, node, deadline);
      out := EnsureImageAvailable(cfg.bitheimImage, cfg.bitheimContext, deadline);
      if out.Err? {
        return;
      }
      StartUnfolds(4, cfg, machine.env, machine.moment, node, deadline);
      out := ComposeUpBy(node, deadline);
    }

    method ComposeUpBy(node: string, deadline: real) returns (out: Result<()>)
      modifies machine
      ensures Did(machine, old(machine.trace), out, Up(machine.env, old(machine.moment), node, deadline))
    {
      var r := Remaining(deadline);
      if r <= 0.0 {
        return Err(StartupTimeoutError);
      }
      var reply := machine.Execute(ComposeUp(node), r);
      out := UpOutcome(reply);
    }

    method GetStateBy(node: string, deadline: real) returns (out: Result<LifecycleState>)
      modifies machine
      ensures Did(machine, old(machine.trace), out, StateBy(cfg, machine.env, old(machine.moment), node, deadline))
    {
      hide InTime, CheckRuntime, PsState;
      var available := CheckRuntimeAvailable(deadline);
      if available.Err? {
        return Err(available.error);
      }
      var r := Remaining(deadline);
      if r <= 0.0 {
        return Err(RuntimeUnavailableError);
      }
      var reply := machine.Execute(ComposePs(node), r);
      if !reply.Exited? || reply.code != 0 {
        return PsOutcome(cfg.lib, reply);
      }
      var state := ReadPs(cfg.lib.loads, reply.out);
      out := Ok(state);
    }

    method Stop(node: string, timeout: real) returns (out: Result<()>)
      modifies machine
      ensures Did(machine, old(machine.trace), out,
        AdapterSpec.Stop(cfg, machine.env, old(machine.moment), node, timeout))
    {
      hide InTime, CheckRuntime, StateBy, StopAndCheck;
      var now := machine.Monotonic();
      var deadline := now + timeout;
      out := CheckRuntimeAvailable(deadline);
      if out.Err? {
        return;
      }
      var state := GetStateBy(node, deadline);
      if state.Err? {
        return Err(state.error);
      }
      if state.value == STOPPED {
        return Ok(());
      }
      out := StopRunning(node, deadline);
    }

    method StopRunning(node: string, deadline: real) returns (out: Result<()>)
      modifies machine
      ensures Did(machine, old(machine.trace), out, StopAndCheck(cfg, machine.env, old(machine.moment), node, deadline))
    {
      hide InTime, StateBy, Grace;
      var r := Remaining(deadline);
      if r <= 0.0 {
        return Err(ShutdownTimeoutError);
      }
      var grace := Grace(r);
      r := Remaining(deadline);
      if r <= 0.0 {
        return Err(ShutdownTimeoutError);
      }
      var reply := machine.Execute(ComposeStop(node, grace), r);
      out := StopOutcome(reply);
      if out.Err? {
        return;
      }
      var state := GetStateBy(node, deadline);
      if state.Err? {
        return Err(state.error);
      }
      if state.value != STOPPED {
        return Err(ShutdownTimeoutError);
      }
      out := Ok(());
    }

    method GetLifecycleState(node: string) returns (out: Result<LifecycleState>)
      modifies machine
      ensures Did(machine, old(machine.trace), out, GetState(cfg, machine.env, old(machine.moment), node))
    {
      hide InTime, StateBy;
      var now := machine.Monotonic();
      out := GetStateBy(node, now + 10.0);
    }

    method ProbeNodeHealth(node: string, timeout: real) returns (out: Result<NodeHealth>)
      modifies machine
      ensures Did(machine, old(machine.trace), out, ProbeHealth(cfg, machine.env, old(machine.moment), node, timeout))
    {
      hide InTime, CheckRuntime, StateBy, DelegatedProbe;
      if timeout <= 0.0 {
        return Ok(Bare(UNKNOWN, "timeout_expired"));
      }
      var now := machine.Monotonic();
      var deadline := now + timeout;
      var available := CheckRuntimeAvailable(deadline);
      if available == Err(RuntimeUnavailableError) {
        return Ok(Bare(UNKNOWN, "runtime_unavailable"));
      }
      if available.Err? {
        return Err(available.error);
      }
      var state := GetStateBy(node, deadline);
      if state.Err? {
        return Err(state.error);
      }
      if state.value == STOPPED {
        return Ok(Bare(STOPPED, "node_stopped"));
      }
      out := RunDelegatedProbe(node, deadline);
    }

    /** The last part of `probe_health`. */
    method RunDelegatedProbe(node: string, deadline: real) returns (out: Result<NodeHealth>)
      modifies machine
      ensures Did(machine, old(machine.trace), out,
        DelegatedProbe(cfg, machine.env, old(machine.moment), node, deadline))
    {
      hide InTime, HealthOutcome;
      var r := Remaining(deadline);
      if r <= 0.0 {
        return Ok(Bare(UNKNOWN, "timeout_expired"));
      }
      var reply := machine.Execute(RunStatus(node), r);
      out := HealthOutcome(cfg.lib, reply);
    }

    method Status(node: string) returns (out: Result<NodeStatus>)
      modifies machine
      ensures Did(machine, old(machine.trace), out, GetStatus(cfg, machine.env, old(machine.moment), node))
    {
      hide InTime, GetState, ProbeHealth;
      var state := GetLifecycleState(node);
      if state.Err? {
        return Err(state.error);
      }
      if state.value == STOPPED {
        return Ok(NodeStatus(node, STOPPED, Bare(STOPPED, "node_stopped")));
      }
      var health := ProbeNodeHealth(node, 5.0);
      if health.Err? {
        return Err(health.error);
      }
      if state.value == UNKNOWN {
        return Ok(NodeStatus(node, UNKNOWN, health.value));
      }
      out := Ok(NodeStatus(node, health.value.state, health.value));
    }

    /** The common body of the four inspections, up to the parsing of the payload. */
    method InspectPayload(node: string, timeout: TimeoutArg, kind: string, args: seq<string>)
      returns (out: Result<Fields>)
      modifies machine
      ensures Did(machine, old(machine.trace), out,
        Inspect(cfg, machine.env, old(machine.moment), node, timeout, kind, args))
    {
      hide InTime, Look, DelegatedInspection;
      if !GoodDeadline(timeout) {
        return Err(Refusal(timeout, RpcError));
      }
      var now := machine.Monotonic();
      var deadline := now + timeout.f.r;
      var look := LookAt(node, deadline);
      if look.Err? {
        return Err(look.error);
      }
      out := RunDelegatedInspection(node, deadline, kind, args);
    }

    method LookAt(node: string, deadline: real) returns (out: Result<()>)
      modifies machine
      ensures Did(machine, old(machine.trace), out, Look(cfg, machine.env, old(machine.moment), node, deadline))
    {
      hide InTime, CheckRuntime, StateBy;
      out := CheckRuntimeAvailable(deadline);
      if out == Err(RuntimeUnavailableError) {
        return Err(RpcUnavailableError);
      }
      if out.Err? {
        return;
      }
      var state := GetStateBy(node, deadline);
      if state.Err? {
        return Err(state.error);
      }
      if state.value == STOPPED {
        return Err(RpcUnavailableError);
      }
      out := Ok(());
    }

    method RunDelegatedInspection(node: string, deadline: real, kind: string, args: seq<string>)
      returns (out: Result<Fields>)
      modifies machine
      ensures Did(machine, old(machine.trace), out,
        DelegatedInspection(cfg, machine.env, old(machine.moment), node, deadline, kind, args))
    {
      hide InTime, Delegation.Payload;
      var r := Remaining(deadline);
      if r <= 0.0 {
        return Err(RpcTimeoutError);
      }
      var reply := machine.Execute(RunInspect(node, kind, args), r);
      out := Delegation.Payload(cfg.lib.loads, reply);
    }

    method InspectNode(node: string, timeout: TimeoutArg) returns (out: Result<NodeOverview>)
      modifies machine
      ensures Did(machine, old(machine.trace), out,
        AdapterSpec.InspectNode(cfg, machine.env, old(machine.moment), node, timeout))
    {
      hide Inspect, Delegation.HostOverview;
      var data := InspectPayload(node, timeout, "node", []);
      out := if data.Ok? then Delegation.HostOverview(data.value) else Err(data.error);
    }

    method InspectBlock(node: string, hash: Value, height: Value, timeout: TimeoutArg)
      returns (out: Result<BlockSummary>)
      modifies machine
      ensures Did(machine, old(machine.trace), out,
        AdapterSpec.InspectBlock(cfg, machine.env, old(machine.moment), node, hash, height, timeout))
    {
      hide InTime, Look, DelegatedInspection, Delegation.HostBlock, BlockQueryArgs, HexMatch;
      if !GoodDeadline(timeout) {
        return Err(Refusal(timeout, RpcError));
      }
      if !GoodBlockQuery(hash, height) {
        return Err(RpcError);
      }
      var now := machine.Monotonic();
      var deadline := now + timeout.f.r;
      var look := LookAt(node, deadline);
      if look.Err? {
        return Err(look.error);
      }
      var args := BlockQueryArgs(hash, height);
      if args.Err? {
        return Err(args.error);
      }
      var data := RunDelegatedInspection(node, deadline, "block", args.value);
      out := if data.Ok? then Delegation.HostBlock(data.value) else Err(data.error);
    }

    method InspectMempool(node: string, timeout: TimeoutArg) returns (out: Result<MempoolSummary>)
      modifies machine
      ensures Did(machine, old(machine.trace), out,
        AdapterSpec.InspectMempool(cfg, machine.env, old(machine.moment), node, timeout))
    {
      hide Inspect, Delegation.HostMempool;
      var data := InspectPayload(node, timeout, "mempool", []);
      out := if data.Ok? then Delegation.HostMempool(data.value) else Err(data.error);
    }

    method InspectPeers(node: string, timeout: TimeoutArg) returns (out: Result<seq<PeerSummary>>)
      modifies machine
      ensures Did(machine, old(machine.trace), out,
        AdapterSpec.InspectPeers(cfg, machine.env, old(machine.moment), node, timeout))
    {
      hide Inspect, Delegation.HostPeers;
      var data := InspectPayload(node, timeout, "peers", []);
      if data.Err? {
        return Err(data.error);
      }
      out := Delegation.ParsePeers(data.value);
    }
  }

  /** What one listed network comes to. */
  function Turn(lib: Library, env: Script, m: Moment, deadline: real, target: Network, own: string, name: string)
    : Run<(), Event>
  {
    if name == own then Run(Ok(()), m, []) else InspectNetwork(lib, env, m, deadline, target, name)
  }

  /** One listed network and the rest of them. */
  lemma ScanUnfolds(lib: Library, env: Script, m: Moment, deadline: real, target: Network, own: string,
                    names: seq<string>, n: nat)
    requires n <= |names|
    ensures ScanNetworks(lib, env, m, deadline, target, own, names[n..]) ==
      if n == |names| then Run(Ok(()), m, [])
      else
        var one := Turn(lib, env, m, deadline, target, own, names[n]);
        if one.out.Err? then one
        else Then(one, ScanNetworks(lib, env, one.at, deadline, target, own, names[n + 1..]))
  {
    hide InTime, InspectNetwork;
    if n < |names| {
      assert names[n..][0] == names[n] && names[n..][1..] == names[n + 1..];
      var rest := ScanNetworks(lib, env, m, deadline, target, own, names[n + 1..]);
      assert [] + rest.events == rest.events;
    }
  }

  /** One step of `start` and the rest of it. */
  lemma StartUnfolds(k: nat, cfg: Config, env: Script, t: Moment, node: string, deadline: real)
    requires k <= 4
    ensures StartFrom(k, cfg, env, t, node, deadline) ==
      if k == 4 then Up(env, t, node, deadline)
      else
        var step := StartStep(k, cfg, env, t, node, deadline);
        if step.out.Err? then step else Then(step, StartFrom(k + 1, cfg, env, step.at, node, deadline))
  {
    hide InTime, StartStep, Up;
  }
}
