/** No operation gives up early: where docker is installed, one that ends without a command that failed, and
    without a reason that a command showed, has used up its time. */
module Progress {
  import opened Outcome
  import opened Text
  import opened Process
  import opened Runs
  import opened World
  import opened Containers
  import opened AdapterSpec
  import opened AdapterSafety
  import opened ServiceSpec
  import opened Observations
  import opened Starting
  import ServiceSafety
  import Cidr

  /** The executable is found whenever it is looked for. */
  ghost predicate Installed(env: Script) { forall n: nat :: env(n).found }

  lemma IssueProgress(env: Script, m: Moment, deadline: real, cmd: Cmd, expired: Failure)
    ensures var r := Issue(env, m, deadline, cmd, expired); r.out.Err? ==> r.at.now >= deadline
  {
    hide InTime;
  }

  lemma RuntimeProgress(env: Script, m: Moment, deadline: real)
    ensures !env(m.step).found ==> CheckRuntime(env, m, deadline) == Run(Err(RuntimeUnavailableError), Read(env, m), [])
    ensures env(m.step).found && CheckRuntime(env, m, deadline).events == [] ==>
            CheckRuntime(env, m, deadline).at.now >= deadline
  {
    hide InTime, Issue;
    IssueProgress(env, Read(env, m), deadline, DockerInfo, RuntimeUnavailableError);
  }

  /** A piece of program that failed though all of its commands went well did so for want of time. */
  ghost predicate UsedUp<T(!new)>(r: Run<T, Event>, deadline: real) {
    r.out.Err? && EndsWell(r.events) ==> r.at.now >= deadline
  }

  /** So does every look at the node's state. */
  lemma StateProgress(cfg: Config, env: Script, m: Moment, node: string, deadline: real)
    requires Installed(env)
    ensures UsedUp(StateBy(cfg, env, m, node, deadline), deadline)
  {
    hide CheckRuntime, PsState, InTime, Issue;
    RuntimeProgress(env, m, deadline);
    RuntimeShape(env, m, deadline);
    var rt := CheckRuntime(env, m, deadline);
    if rt.out.Ok? {
      var ps := Issue(env, rt.at, deadline, ComposePs(node), RuntimeUnavailableError);
      IssueProgress(env, rt.at, deadline, ComposePs(node), RuntimeUnavailableError);
      if ps.out.Ok? {
        var es := rt.events + ps.events;
        assert es[|es| - 1] == ps.events[0];
      }
    }
  }

  // ----- stop -----

  /** `stop` fails after commands that went well only for want of time, but for a node that its second look still
      showed in another state. */
  lemma StopProgress(cfg: Config, env: Script, m: Moment, node: string, timeout: real)
    requires Installed(env)
    ensures var r := Stop(cfg, env, m, node, timeout);
      r.out.Err? && EndsWell(r.events) && |r.events| < 6 ==> r.at.now >= Read(env, m).now + timeout
  {
    hide CheckRuntime, StateBy, StopAndCheck, PsState, InTime;
    var t := Read(env, m);
    var deadline := t.now + timeout;
    var rt := CheckRuntime(env, t, deadline);
    RuntimeProgress(env, t, deadline);
    RuntimeShape(env, t, deadline);
    if rt.out.Ok? {
      var pre := StateBy(cfg, env, rt.at, node, deadline);
      StateProgress(cfg, env, rt.at, node, deadline);
      StateHasShape(cfg, env, rt.at, node, deadline);
      LastOf(rt.events, pre.events);
      if pre.out.Ok? && !pre.out.value.STOPPED? {
        var rest := StopAndCheck(cfg, env, pre.at, node, deadline);
        TailProgress(cfg, env, pre.at, node, deadline);
        StopAndCheckShape(cfg, env, pre.at, node, deadline);
        LastOf(rt.events + pre.events, rest.events);
      }
    }
  }

  lemma LastOf(a: seq<Event>, b: seq<Event>)
    ensures b != [] ==> (a + b)[|a + b| - 1] == b[|b| - 1]
    ensures EndsWell(a + b) ==> EndsWell(b)
    ensures b == [] ==> a + b == a
  {
  }

  lemma TailProgress(cfg: Config, env: Script, m: Moment, node: string, deadline: real)
    requires Installed(env)
    ensures var r := StopAndCheck(cfg, env, m, node, deadline);
      r.out.Err? && EndsWell(r.events) && |r.events| < 3 ==> r.at.now >= deadline
  {
    hide StateBy, PsState, Grace, InTime, Issue;
    var t := Read(env, m);
    var cmd := ComposeStop(node, Grace(deadline - t.now));
    IssueProgress(env, t, deadline, cmd, ShutdownTimeoutError);
    var halt := Issue(env, t, deadline, cmd, ShutdownTimeoutError);
    if deadline - t.now > 0.0 && halt.out.Ok? && StopOutcome(halt.out.value).Ok? {
      StateProgress(cfg, env, halt.at, node, deadline);
      StateHasShape(cfg, env, halt.at, node, deadline);
      LastOf(halt.events, StateBy(cfg, env, halt.at, node, deadline).events);
    }
  }

  // ----- probe_health and inspect_* -----

  /** The look itself. */
  lemma LookProgress(cfg: Config, env: Script, t: Moment, node: string, deadline: real)
    requires Installed(env)
    ensures var rt := CheckRuntime(env, t, deadline);
      var pre := StateBy(cfg, env, rt.at, node, deadline);
      UsedUp(rt, deadline) && (rt.out.Ok? ==> UsedUp(Then(rt, pre), deadline))
  {
    hide CheckRuntime, StateBy;
    RuntimeProgress(env, t, deadline);
    RuntimeShape(env, t, deadline);
    var rt := CheckRuntime(env, t, deadline);
    StateProgress(cfg, env, rt.at, node, deadline);
    LastOf(rt.events, StateBy(cfg, env, rt.at, node, deadline).events);
  }

  /** Without a delegated command: the time was over, the last command failed, or the node was seen at rest. */
  ghost predicate Stuck(cfg: Config, es: seq<Event>) {
    |es| < 4 && EndsWell(es) && !(|es| == 3 && ShowedRest(cfg, es[2]))
  }

  /** A probe that does not get to ask the node, though its commands went well and showed a node to ask, has used up
      its budget. */
  lemma ProbeProgress(cfg: Config, env: Script, m: Moment, node: string, budget: real)
    requires Installed(env) && budget > 0.0
    ensures var r := ProbeHealth(cfg, env, m, node, budget);
      Stuck(cfg, r.events) ==> r.at.now >= Read(env, m).now + budget
  {
    hide CheckRuntime, StateBy, DelegatedProbe, PsState, AtRest, InTime;
    var t := Read(env, m);
    var deadline := t.now + budget;
    LookProgress(cfg, env, t, node, deadline);
    RuntimeShape(env, t, deadline);
    LookHasShape(cfg, env, t, node, deadline);
    var rt := CheckRuntime(env, t, deadline);
    if rt.out.Ok? {
      var pre := StateBy(cfg, env, rt.at, node, deadline);
      if pre.out.Ok? {
        ObservedShows(cfg, (rt.events + pre.events)[2]);
        AskProgress(cfg, env, pre.at, node, deadline);
      }
    }
  }

  lemma AskProgress(cfg: Config, env: Script, m: Moment, node: string, deadline: real)
    ensures var r := DelegatedProbe(cfg, env, m, node, deadline); r.events == [] ==> r.at.now >= deadline
  {
    hide HealthOutcome, InTime, Issue;
    IssueProgress(env, m, deadline, RunStatus(node), StartupTimeoutError);
  }

  /** Nor does an inspection. */
  lemma InspectProgress(cfg: Config, env: Script, m: Moment, node: string, timeout: TimeoutArg, kind: string,
                        args: seq<string>)
    requires Installed(env) && GoodDeadline(timeout)
    ensures var r := Inspect(cfg, env, m, node, timeout, kind, args);
      Stuck(cfg, r.events) ==> r.at.now >= Read(env, m).now + timeout.f.r
  {
    hide CheckRuntime, StateBy, DelegatedInspection, PsState, AtRest, InTime;
    var t := Read(env, m);
    var deadline := t.now + timeout.f.r;
    LookProgress(cfg, env, t, node, deadline);
    RuntimeShape(env, t, deadline);
    LookHasShape(cfg, env, t, node, deadline);
    var rt := CheckRuntime(env, t, deadline);
    if rt.out.Ok? {
      var pre := StateBy(cfg, env, rt.at, node, deadline);
      if pre.out.Ok? {
        ObservedShows(cfg, (rt.events + pre.events)[2]);
        ReachProgress(cfg, env, pre.at, node, deadline, kind, args);
      }
    }
  }

  lemma ReachProgress(cfg: Config, env: Script, m: Moment, node: string, deadline: real, kind: string,
                      args: seq<string>)
    ensures var r := DelegatedInspection(cfg, env, m, node, deadline, kind, args);
      r.events == [] ==> r.at.now >= deadline
  {
    hide InTime, Issue;
    IssueProgress(env, m, deadline, RunInspect(node, kind, args), RpcTimeoutError);
  }

  // ----- start -----

  /** An image that is missing and can be built is built, if there is time. */
  lemma ImageProgress(env: Script, m: Moment, image: string, context: BuildContext, deadline: real)
    ensures var r := EnsureImage(env, m, image, context, deadline);
      UsedUp(r, deadline) &&
      (|r.events| == 1 && SaysMissing(r.events[0].reply) && context == WithDockerfile ==> r.at.now >= deadline)
  {
    hide InTime, Issue, ImageMissing, SaysMissing;
    IssueProgress(env, m, deadline, ImageInspect(image), RuntimeUnavailableError);
    var insp := Issue(env, m, deadline, ImageInspect(image), RuntimeUnavailableError);
    if insp.out.Ok? {
      ImageMissingIff(insp.out.value);
      MissingFails(insp.out.value);
      IssueProgress(env, insp.at, deadline, ImageBuild(image), RuntimeUnavailableError);
      LastOf(insp.events, Issue(env, insp.at, deadline, ImageBuild(image), RuntimeUnavailableError).events);
    }
  }

  lemma {:induction false} ScanProgress(lib: Library, env: Script, m: Moment, deadline: real, target: Cidr.Network,
                                        own: string, names: seq<string>)
    ensures var r := ScanNetworks(lib, env, m, deadline, target, own, names);
      var collides := r.events != [] && ShowedCollision(lib, target, r.events[|r.events| - 1]);
      r.out.Err? && EndsWell(r.events) && !collides ==> r.at.now >= deadline
    decreases |names|
  {
    hide InTime, InspectNetwork, ShowedCollision;
    if names == [] {
    } else if names[0] == own {
      ScanProgress(lib, env, m, deadline, target, own, names[1..]);
    } else {
      var one := InspectNetwork(lib, env, m, deadline, target, names[0]);
      InspectionProgress(lib, env, m, deadline, target, names[0]);
      if one.out.Ok? {
        ScanProgress(lib, env, one.at, deadline, target, own, names[1..]);
        LastOf(one.events, ScanNetworks(lib, env, one.at, deadline, target, own, names[1..]).events);
      }
    }
  }

  lemma InspectionProgress(lib: Library, env: Script, m: Moment, deadline: real, target: Cidr.Network, name: string)
    ensures var r := InspectNetwork(lib, env, m, deadline, target, name);
      var collides := r.events != [] && ShowedCollision(lib, target, r.events[|r.events| - 1]);
      r.out.Err? && EndsWell(r.events) && !collides ==> r.at.now >= deadline
  {
    hide InTime, Issue, CheckSubnets, Words, Collides;
    InspectionTold(lib, env, m, deadline, target, name);
    IssueProgress(env, m, deadline, NetworkInspect(name), RuntimeUnavailableError);
  }

  lemma CollisionProgress(cfg: Config, env: Script, m: Moment, node: string, deadline: real)
    requires cfg.lib.network(cfg.subnet).Some?
    ensures var r := CheckCollision(cfg, env, m, node, deadline);
      r.out.Err? && EndsWell(r.events) && !EndsInCollision(cfg, r.events) ==> r.at.now >= deadline
  {
    hide InTime, Issue, ScanNetworks, NetworkNames, Collides, Words;
    IssueProgress(env, m, deadline, NetworkList, RuntimeUnavailableError);
    var list := Issue(env, m, deadline, NetworkList, RuntimeUnavailableError);
    if list.out.Ok? && Expect(list.out.value, RuntimeUnavailableError).Ok? {
      var (target, names) := (cfg.lib.network(cfg.subnet).value, NetworkNames(list.out.value.out));
      ScanProgress(cfg.lib, env, list.at, deadline, target, ProjectNetwork(node), names);
      var scan := ScanNetworks(cfg.lib, env, list.at, deadline, target, ProjectNetwork(node), names);
      LastOf(list.events, scan.events);
    }
  }

  lemma StepProgress(k: nat, cfg: Config, env: Script, m: Moment, node: string, deadline: real)
    requires k < 4 && cfg.lib.network(cfg.subnet).Some? && Installed(env)
    ensures var r := StartStep(k, cfg, env, m, node, deadline);
      r.out.Err? && EndsWell(r.events) && !EndsInCollision(cfg, r.events) ==> r.at.now >= deadline
  {
    hide CheckRuntime, CheckCollision, EnsureImage, EndsInCollision;
    match k
    case 0 =>
      RuntimeProgress(env, m, deadline);
      RuntimeShape(env, m, deadline);
    case 1 => CollisionProgress(cfg, env, m, node, deadline);
    case 2 => ImageProgress(env, m, cfg.bitcoinImage, cfg.bitcoinContext, deadline);
    case _ => ImageProgress(env, m, cfg.bitheimImage, cfg.bitheimContext, deadline);
  }

  lemma UpProgress(env: Script, m: Moment, node: string, deadline: real)
    ensures UsedUp(Up(env, m, node, deadline), deadline)
  {
    hide InTime, Issue;
    IssueProgress(env, m, deadline, ComposeUp(node), StartupTimeoutError);
  }

  lemma {:induction false} StartFromProgress(k: nat, cfg: Config, env: Script, m: Moment, node: string, deadline: real)
    requires k <= 4 && cfg.lib.network(cfg.subnet).Some? && Installed(env)
    ensures var r := StartFrom(k, cfg, env, m, node, deadline);
      r.out.Err? && EndsWell(r.events) && !EndsInCollision(cfg, r.events) ==> r.at.now >= deadline
    decreases 4 - k
  {
    hide StartStep, Up, ShowedCollision, Succeeded;
    if k == 4 {
      UpProgress(env, m, node, deadline);
    } else {
      var step := StartStep(k, cfg, env, m, node, deadline);
      StepProgress(k, cfg, env, m, node, deadline);
      if step.out.Ok? {
        StartFromProgress(k + 1, cfg, env, step.at, node, deadline);
        LastOf(step.events, StartFrom(k + 1, cfg, env, step.at, node, deadline).events);
      }
    }
  }

  /** `start` fails after commands that all went well only for want of time, but for a network in the way (and for
      a malformed configured block). */
  lemma StartProgress(cfg: Config, env: Script, m: Moment, node: string, timeout: real)
    requires cfg.lib.network(cfg.subnet).Some? && Installed(env)
    ensures var r := Start(cfg, env, m, node, timeout);
      r.out.Err? && EndsWell(r.events) && !EndsInCollision(cfg, r.events) ==> r.at.now >= Read(env, m).now + timeout
  {
    hide StartFrom, EndsInCollision, EndsWell;
    var t := Read(env, m);
    StartFromProgress(0, cfg, env, t, node, t.now + timeout);
  }

  // ----- The readiness loop -----

  /** The polling raises `StartupTimeoutError` only when its time is over. */
  lemma {:induction false} PollProgress(cfg: Config, env: Script, m: Moment, node: string, deadline: real)
    ensures var r := Poll(cfg, env, m, node, deadline);
      r.out == Err(StartupTimeoutError) ==> r.at.now >= deadline
    decreases Rounds(deadline - m.now)
  {
    hide ProbeHealth, Rounds, InTime;
    var t := Read(env, m);
    ServiceSafety.ProbeErrors(cfg, env, t, node, Least(2.0, deadline - t.now));
    var one := PollOnce(cfg, env, m, node, deadline);
    if one.out == Ok(None) {
      PollProgress(cfg, env, one.at, node, deadline);
    }
  }
}
