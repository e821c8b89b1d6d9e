/** When an exception that no one foresees gets out of the lifecycle operations: exactly when a
    command ended in one. */
module Unforeseen {
  import opened Outcome
  import opened Text
  import opened Process
  import opened Runs
  import opened World
  import opened Health
  import opened Containers
  import opened AdapterSpec
  import opened AdapterSafety
  import opened ServiceSpec
  import Cidr

  /** The piece of program let such an exception out exactly when one of its commands ended in one. */
  predicate Transparent<T(!new)>(r: Run<T, Event>) {
    r.out == Err(OtherException) <==> SomethingRaised(r.events)
  }

  /** A piece of program that went well, and then another. */
  lemma TransparentThen<T(!new), U(!new)>(a: Run<T, Event>, b: Run<U, Event>)
    requires Transparent(a) && a.out != Err(OtherException) && Transparent(b)
    ensures Transparent(Then(a, b))
  {
    hide SomethingRaised;
    RaisedJoined(a.events, b.events);
  }

  lemma IssueRaises(env: Script, m: Moment, deadline: real, cmd: Cmd, expired: Failure)
    ensures var r := Issue(env, m, deadline, cmd, expired);
      SomethingRaised(r.events) <==> r.out.Ok? && r.out.value.Raised?
  {
    hide InTime;
    var r := Issue(env, m, deadline, cmd, expired);
    assert r.out.Ok? ==> r.events == [r.events[0]];
  }

  lemma StateTransparent(cfg: Config, env: Script, m: Moment, node: string, deadline: real)
    ensures Transparent(StateBy(cfg, env, m, node, deadline))
  {
    hide StateBy, PsState, SomethingRaised;
    StateHasShape(cfg, env, m, node, deadline);
    StateRaises(cfg, node, StateBy(cfg, env, m, node, deadline));
  }

  lemma NothingRaised()
    ensures !SomethingRaised([])
  {
  }

  // ----- start -----

  lemma {:induction false} SubnetErrors(lib: Library, target: Cidr.Network, subnets: seq<string>)
    ensures CheckSubnets(lib, target, subnets).Err? ==> CheckSubnets(lib, target, subnets).error == LifecycleError
  {
    if subnets == [] {
    } else {
      SubnetErrors(lib, target, subnets[1..]);
    }
  }

  lemma InspectionTransparent(lib: Library, env: Script, m: Moment, deadline: real, target: Cidr.Network, name: string)
    ensures Transparent(InspectNetwork(lib, env, m, deadline, target, name))
  {
    hide InTime, Words, CheckSubnets, SomethingRaised, Issue;
    IssueRaises(env, m, deadline, NetworkInspect(name), RuntimeUnavailableError);
    var one := Issue(env, m, deadline, NetworkInspect(name), RuntimeUnavailableError);
    if one.out.Ok? && one.out.value.Exited? {
      SubnetErrors(lib, target, Words(one.out.value.out));
    }
  }

  lemma {:induction false} ScanTransparent(lib: Library, env: Script, m: Moment, deadline: real, target: Cidr.Network,
                                           own: string, names: seq<string>)
    ensures Transparent(ScanNetworks(lib, env, m, deadline, target, own, names))
    decreases |names|
  {
    hide InTime, InspectNetwork, SomethingRaised;
    if names == [] {
      NothingRaised();
    } else if names[0] == own {
      ScanTransparent(lib, env, m, deadline, target, own, names[1..]);
    } else {
      var one := InspectNetwork(lib, env, m, deadline, target, names[0]);
      InspectionTransparent(lib, env, m, deadline, target, names[0]);
      if one.out.Ok? {
        ScanTransparent(lib, env, one.at, deadline, target, own, names[1..]);
        TransparentThen(one, ScanNetworks(lib, env, one.at, deadline, target, own, names[1..]));
      }
    }
  }

  lemma CollisionTransparent(cfg: Config, env: Script, m: Moment, node: string, deadline: real)
    ensures Transparent(CheckCollision(cfg, env, m, node, deadline))
  {
    hide InTime, ScanNetworks, NetworkNames, SomethingRaised, Issue;
    NothingRaised();
    IssueRaises(env, m, deadline, NetworkList, RuntimeUnavailableError);
    var list := Issue(env, m, deadline, NetworkList, RuntimeUnavailableError);
    var target := cfg.lib.network(cfg.subnet);
    if target.Some? && list.out.Ok? && list.out.value.Exited? {
      var names := NetworkNames(list.out.value.out);
      ScanTransparent(cfg.lib, env, list.at, deadline, target.value, ProjectNetwork(node), names);
      var scan := ScanNetworks(cfg.lib, env, list.at, deadline, target.value, ProjectNetwork(node), names);
      RaisedJoined(list.events, scan.events);
    }
  }

  lemma ImageTransparent(env: Script, m: Moment, image: string, context: BuildContext, deadline: real)
    ensures Transparent(EnsureImage(env, m, image, context, deadline))
  {
    hide InTime, SaysNotFound, SomethingRaised, Issue;
    IssueRaises(env, m, deadline, ImageInspect(image), RuntimeUnavailableError);
    var insp := Issue(env, m, deadline, ImageInspect(image), RuntimeUnavailableError);
    IssueRaises(env, insp.at, deadline, ImageBuild(image), RuntimeUnavailableError);
    RaisedJoined(insp.events, Issue(env, insp.at, deadline, ImageBuild(image), RuntimeUnavailableError).events);
  }

  lemma UpTransparent(env: Script, m: Moment, node: string, deadline: real)
    ensures Transparent(Up(env, m, node, deadline))
  {
    hide InTime, SomethingRaised, Issue;
    IssueRaises(env, m, deadline, ComposeUp(node), StartupTimeoutError);
  }

  lemma StepTransparent(k: nat, cfg: Config, env: Script, m: Moment, node: string, deadline: real)
    requires k < 4
    ensures Transparent(StartStep(k, cfg, env, m, node, deadline))
  {
    hide InTime, CheckRuntime, CheckCollision, EnsureImage, SomethingRaised;
    match k
    case 0 => RuntimeRaises(env, m, deadline);
    case 1 => CollisionTransparent(cfg, env, m, node, deadline);
    case 2 => ImageTransparent(env, m, cfg.bitcoinImage, cfg.bitcoinContext, deadline);
    case _ => ImageTransparent(env, m, cfg.bitheimImage, cfg.bitheimContext, deadline);
  }

  lemma {:induction false} StartTransparent(k: nat, cfg: Config, env: Script, m: Moment, node: string, deadline: real)
    requires k <= 4
    ensures Transparent(StartFrom(k, cfg, env, m, node, deadline))
    decreases 4 - k
  {
    hide StartStep, Up, SomethingRaised;
    if k == 4 {
      UpTransparent(env, m, node, deadline);
    } else {
      var step := StartStep(k, cfg, env, m, node, deadline);
      StepTransparent(k, cfg, env, m, node, deadline);
      if step.out.Ok? {
        StartTransparent(k + 1, cfg, env, step.at, node, deadline);
        TransparentThen(step, StartFrom(k + 1, cfg, env, step.at, node, deadline));
      }
    }
  }

  // ----- probe_health, get_status, the polling loop -----

  lemma ReportTransparent(cfg: Config, env: Script, m: Moment, node: string, deadline: real)
    ensures Transparent(DelegatedProbe(cfg, env, m, node, deadline))
  {
    hide InTime, HostHealth, HasPart, SomethingRaised, Issue;
    IssueRaises(env, m, deadline, RunStatus(node), StartupTimeoutError);
  }

  lemma ProbeByTransparent(cfg: Config, env: Script, t: Moment, node: string, deadline: real)
    ensures Transparent(ProbeBy(cfg, env, t, node, deadline))
  {
    hide InTime, CheckRuntime, StateBy, DelegatedProbe, SomethingRaised;
    var rt := CheckRuntime(env, t, deadline);
    RuntimeRaises(env, t, deadline);
    if rt.out.Ok? {
      var pre := StateBy(cfg, env, rt.at, node, deadline);
      StateTransparent(cfg, env, rt.at, node, deadline);
      TransparentThen(rt, pre);
      if pre.out.Ok? {
        ReportTransparent(cfg, env, pre.at, node, deadline);
        TransparentThen(Then(rt, pre), DelegatedProbe(cfg, env, pre.at, node, deadline));
      }
    }
  }

  lemma ProbeTransparent(cfg: Config, env: Script, m: Moment, node: string, timeout: real)
    ensures Transparent(ProbeHealth(cfg, env, m, node, timeout))
  {
    hide InTime, ProbeBy, SomethingRaised;
    NothingRaised();
    if timeout > 0.0 {
      var t := Read(env, m);
      ProbeByTransparent(cfg, env, t, node, t.now + timeout);
    }
  }

  lemma StatusTransparent(cfg: Config, env: Script, m: Moment, node: string)
    ensures Transparent(GetStatus(cfg, env, m, node))
  {
    hide StateBy, ProbeHealth, SomethingRaised;
    var t := Read(env, m);
    StateTransparent(cfg, env, t, node, t.now + 10.0);
    var st := GetState(cfg, env, m, node);
    if st.out.Ok? {
      ProbeTransparent(cfg, env, st.at, node, 5.0);
      TransparentThen(st, ProbeHealth(cfg, env, st.at, node, 5.0));
    }
  }

  lemma RoundTransparent(cfg: Config, env: Script, m: Moment, node: string, deadline: real)
    ensures Transparent(PollOnce(cfg, env, m, node, deadline))
  {
    hide InTime, ProbeHealth, Rounds, SomethingRaised;
    NothingRaised();
    var t := Read(env, m);
    var budget := Least(2.0, deadline - t.now);
    var probe := ProbeHealth(cfg, env, t, node, budget);
    ProbeTransparent(cfg, env, t, node, budget);
    var u := Read(env, probe.at);
    var nap := Least(0.5, deadline - u.now);
    var (note, sleep) := ([Probing(t.now, budget)], [Slept(nap, u.now, Awake(env, u, nap).now)]);
    NotRaised(note[0]);
    NotRaised(sleep[0]);
    RaisedJoined(note, probe.events);
    RaisedJoined(note + probe.events, sleep);
  }

  lemma NotRaised(e: Event)
    requires !e.Ran?
    ensures !SomethingRaised([e])
  {
  }

  lemma {:induction false} PollTransparent(cfg: Config, env: Script, m: Moment, node: string, deadline: real)
    ensures Transparent(Poll(cfg, env, m, node, deadline))
    decreases Rounds(deadline - m.now)
  {
    hide PollOnce, Rounds, SomethingRaised;
    RoundTransparent(cfg, env, m, node, deadline);
    var one := PollOnce(cfg, env, m, node, deadline);
    if one.out == Ok(None) {
      PollTransparent(cfg, env, one.at, node, deadline);
      TransparentThen(one, Poll(cfg, env, one.at, node, deadline));
    }
  }

  // ----- stop -----

  lemma StopRunningTransparent(cfg: Config, env: Script, m: Moment, node: string, deadline: real)
    ensures Transparent(StopAndCheck(cfg, env, m, node, deadline))
  {
    hide InTime, StateBy, Grace, SomethingRaised, Issue;
    NothingRaised();
    var t := Read(env, m);
    var cmd := ComposeStop(node, Grace(deadline - t.now));
    IssueRaises(env, t, deadline, cmd, ShutdownTimeoutError);
    var halt := Issue(env, t, deadline, cmd, ShutdownTimeoutError);
    StateTransparent(cfg, env, halt.at, node, deadline);
    RaisedJoined(halt.events, StateBy(cfg, env, halt.at, node, deadline).events);
  }

  lemma StopTransparent(cfg: Config, env: Script, m: Moment, node: string, deadline: real)
    ensures Transparent(StopBy(cfg, env, m, node, deadline))
  {
    hide InTime, CheckRuntime, StateBy, StopAndCheck, SomethingRaised;
    var rt := CheckRuntime(env, m, deadline);
    RuntimeRaises(env, m, deadline);
    if rt.out.Ok? {
      var pre := StateBy(cfg, env, rt.at, node, deadline);
      StateTransparent(cfg, env, rt.at, node, deadline);
      TransparentThen(rt, pre);
      if pre.out.Ok? {
        StopRunningTransparent(cfg, env, pre.at, node, deadline);
        TransparentThen(Then(rt, pre), StopAndCheck(cfg, env, pre.at, node, deadline));
      }
    }
  }
}
