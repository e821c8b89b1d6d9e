/** How long `start_node` can really take: one run that uses up every budget it is given. */
module SlowestStart {
  import opened Outcome
  import opened Domain
  import opened Process
  import opened Runs
  import opened World
  import opened Health
  import opened AdapterSpec
  import opened AdapterSafety
  import opened ScriptedRuns
  import opened Validation
  import opened ServiceSpec
  import opened ServiceSafety

  /** What is asked of a configuration: its subnet parses, and "x" is not JSON. */
  predicate Usable(cfg: Config) {
    cfg.lib.network(cfg.subnet).Some? && cfg.lib.loads("x") == None
  }

  /** The first `ps` takes ten seconds, the first probe five and `up` as long as it may; `ps` and the
      probe print "x". When `up` is done the `docker` executable is gone. */
  function SlowTick(k: int, up: Span): Tick {
    Tick(0.0,
         if k == 5 then 10.0 else if k == 16 then 5.0 else if k == 28 then up else 0.0,
         Exited(0, if k == 5 || k == 14 || k == 16 then "x" else "", ""),
         k < 29)
  }

  function SlowScript(first: nat, up: Span): (env: Script)
    ensures forall n: nat :: env(n) == SlowTick(n - first, up)
  {
    n => SlowTick(n - first, up)
  }

  lemma SlowState(cfg: Config, m: Moment, node: string, up: Span)
    requires Usable(cfg)
    ensures var r := GetState(cfg, SlowScript(m.step, up), m, node);
      r.out == Ok(UNKNOWN) && r.at == Moment(m.now + 10.0, m.step + 6) && Honoured(r.events)
  {
    hide InTime, StateBy, Honoured;
    var env := SlowScript(m.step, up);
    UnreadableState(cfg, env, Read(env, m), node, m.now + 10.0);
  }

  /** A probe of a node in an unknown state whose report is "x". */
  lemma SlowProbe(cfg: Config, m: Moment, first: nat, node: string, up: Span)
    requires Usable(cfg) && m.step == first + 6
    ensures var r := ProbeHealth(cfg, SlowScript(first, up), m, node, 5.0);
      r.out.Ok? && r.out.value.state == UNKNOWN && r.at == Moment(m.now + 5.0, m.step + 11) && Honoured(r.events)
  {
    hide InTime, StateBy, Honoured, CheckRuntime, DelegatedProbe, Succeeded, SlowTick;
    var env := SlowScript(first, up);
    SlowTicks(first, up);
    var (t, deadline) := (Read(env, m), m.now + 5.0);
    LiveRuntime(env, t, deadline);
    var rt := CheckRuntime(env, t, deadline);
    UnreadableState(cfg, env, rt.at, node, deadline);
    var pre := StateBy(cfg, env, rt.at, node, deadline);
    UnreadableReport(cfg, env, pre.at, node, deadline);
    var probe := DelegatedProbe(cfg, env, pre.at, node, deadline);
    HonouredParts(rt.events, pre.events);
    HonouredParts(rt.events + pre.events, probe.events);
  }

  lemma UnreadableReport(cfg: Config, env: Script, m: Moment, node: string, deadline: real)
    requires cfg.lib.loads("x") == None && m.now < deadline && env(m.step).drift == 0.0
    requires env(m.step + 1).lasts <= deadline - m.now && env(m.step + 1).reply == Exited(0, "x", "")
    ensures var r := DelegatedProbe(cfg, env, m, node, deadline);
      r.out.Ok? && r.out.value.state == UNKNOWN && r.at == Moment(m.now + env(m.step + 1).lasts, m.step + 2) &&
      Honoured(r.events)
  {
    hide InTime, Issue, Honoured, HostHealth;
    UnreadableOutput(cfg.lib);
    Dispatched(env, m, deadline, RunStatus(node), StartupTimeoutError);
  }

  /** What the slow script has in store for the probe. */
  lemma SlowTicks(first: nat, up: Span)
    ensures var env := SlowScript(first, up);
      Instant(env) && env(first + 7).found && env(first + 10).found &&
      env(first + 9) == env(first + 12) == Tick(0.0, 0.0, Exited(0, "", ""), true) &&
      env(first + 14) == Tick(0.0, 0.0, Exited(0, "x", ""), true) &&
      env(first + 16) == Tick(0.0, 5.0, Exited(0, "x", ""), true)
  {
  }

  lemma SlowStatus(cfg: Config, m: Moment, node: string, up: Span)
    requires Usable(cfg)
    ensures var r := GetStatus(cfg, SlowScript(m.step, up), m, node);
      r.out.Ok? && r.out.value.state == UNKNOWN && r.at == Moment(m.now + 15.0, m.step + 17) && Honoured(r.events)
  {
    hide InTime, GetState, ProbeHealth, Honoured;
    var env := SlowScript(m.step, up);
    SlowState(cfg, m, node, up);
    var st := GetState(cfg, env, m, node);
    SlowProbe(cfg, st.at, m.step, node, up);
    HonouredParts(st.events, ProbeHealth(cfg, env, st.at, node, 5.0).events);
  }

  /** The script from one step to another: quick commands that succeed and print nothing. */
  ghost predicate Quick(env: Script, from: nat, to: nat) {
    forall n: nat :: from <= n < to ==> env(n) == Tick(0.0, 0.0, Exited(0, "", ""), true)
  }

  lemma NoNames()
    ensures NetworkNames("") == []
  {
  }

  lemma QuickCollision(cfg: Config, env: Script, m: Moment, node: string, deadline: real)
    requires Usable(cfg) && m.now < deadline && Instant(env) && Quick(env, m.step, m.step + 2)
    ensures var r := CheckCollision(cfg, env, m, node, deadline);
      r.out.Ok? && r.at == Moment(m.now, m.step + 2) && Honoured(r.events)
  {
    hide InTime, Honoured, NetworkNames, Issue;
    NoNames();
    Dispatched(env, m, deadline, NetworkList, RuntimeUnavailableError);
    var list := Issue(env, m, deadline, NetworkList, RuntimeUnavailableError);
    assert list.events + [] == list.events;
  }

  lemma QuickImage(env: Script, m: Moment, image: string, context: BuildContext, deadline: real)
    requires m.now < deadline && Instant(env) && Quick(env, m.step, m.step + 2)
    ensures var r := EnsureImage(env, m, image, context, deadline);
      r.out.Ok? && r.at == Moment(m.now, m.step + 2) && Honoured(r.events)
  {
    hide InTime, Honoured, Issue;
    Dispatched(env, m, deadline, ImageInspect(image), RuntimeUnavailableError);
  }

  lemma QuickStep(k: nat, cfg: Config, env: Script, m: Moment, node: string, deadline: real)
    requires k < 4 && Usable(cfg) && m.now < deadline && Instant(env) && Quick(env, m.step, m.step + 3)
    ensures var r := StartStep(k, cfg, env, m, node, deadline);
      r.out.Ok? && r.at == Moment(m.now, m.step + if k == 0 then 3 else 2) && Honoured(r.events)
  {
    hide InTime, Honoured, CheckRuntime, CheckCollision, EnsureImage;
    match k
    case 0 => LiveRuntime(env, m, deadline);
    case 1 => QuickCollision(cfg, env, m, node, deadline);
    case 2 => QuickImage(env, m, cfg.bitcoinImage, cfg.bitcoinContext, deadline);
    case _ => QuickImage(env, m, cfg.bitheimImage, cfg.bitheimContext, deadline);
  }

  /** Quick preflight steps, and an `up` that takes all the time there is. */
  lemma {:induction false} SlowUp(k: nat, cfg: Config, env: Script, m: Moment, node: string, deadline: real)
    requires k <= 4 && Usable(cfg) && m.now < deadline && Instant(env)
    requires var left := 2 * (4 - k) + (if k == 0 then 1 else 0);
      Quick(env, m.step, m.step + left + 1) &&
      env(m.step + left + 1) == Tick(0.0, deadline - m.now, Exited(0, "", ""), true)
    ensures var r := StartFrom(k, cfg, env, m, node, deadline);
      r.out.Ok? && r.at == Moment(deadline, m.step + 10 - 2 * k + (if k == 0 then 1 else 0)) && Honoured(r.events)
    decreases 4 - k
  {
    hide InTime, Honoured, StartStep, Issue;
    if k == 4 {
      Dispatched(env, m, deadline, ComposeUp(node), StartupTimeoutError);
    } else {
      QuickStep(k, cfg, env, m, node, deadline);
      var step := StartStep(k, cfg, env, m, node, deadline);
      SlowUp(k + 1, cfg, env, step.at, node, deadline);
      HonouredParts(step.events, StartFrom(k + 1, cfg, env, step.at, node, deadline).events);
    }
  }

  lemma SlowStartRun(cfg: Config, m: Moment, first: nat, node: string, timeout: real)
    requires Usable(cfg) && m.step == first + 17 && timeout > 0.0
    ensures var r := Start(cfg, SlowScript(first, timeout), m, node, timeout);
      r.out.Ok? && r.at == Moment(m.now + timeout, m.step + 12) && Honoured(r.events)
  {
    hide InTime, Honoured, StartFrom;
    var env := SlowScript(first, timeout);
    SlowUp(0, cfg, env, Read(env, m), node, m.now + timeout);
  }

  // ----- Polling without an executable -----

  /** From this step on `docker` is not found, and nothing takes time. */
  ghost predicate Gone(env: Script, from: nat) {
    forall n: nat :: from <= n ==> env(n).drift == env(n).lasts == 0.0 && !env(n).found
  }

  lemma GoneProbe(cfg: Config, env: Script, m: Moment, node: string, budget: real)
    requires Gone(env, m.step) && budget > 0.0
    ensures ProbeHealth(cfg, env, m, node, budget) ==
            Run(Ok(Bare(UNKNOWN, "runtime_unavailable")), Moment(m.now, m.step + 2), [])
  {
    hide InTime, StateBy, DelegatedProbe;
  }

  lemma GoneRound(cfg: Config, env: Script, m: Moment, node: string, deadline: real)
    requires Gone(env, m.step) && m.now <= deadline
    ensures var r := PollOnce(cfg, env, m, node, deadline);
      Honoured(r.events) && m.step <= r.at.step &&
      (if m.now == deadline then r.out == Err(StartupTimeoutError) && r.at.now == deadline
       else r.out == Ok(None) && r.at.now == m.now + Least(0.5, deadline - m.now))
  {
    hide InTime, ProbeHealth, Rounds;
    var t := Read(env, m);
    if m.now < deadline {
      GoneProbe(cfg, env, t, node, Least(2.0, deadline - m.now));
    }
  }

  lemma {:induction false} GonePoll(cfg: Config, env: Script, m: Moment, node: string, deadline: real)
    requires Gone(env, m.step) && m.now <= deadline
    ensures var r := Poll(cfg, env, m, node, deadline);
      r.out == Err(StartupTimeoutError) && r.at.now == deadline && Honoured(r.events)
    decreases Rounds(deadline - m.now)
  {
    hide PollOnce, Honoured, Rounds;
    GoneRound(cfg, env, m, node, deadline);
    var one := PollOnce(cfg, env, m, node, deadline);
    if one.out == Ok(None) {
      GonePoll(cfg, env, one.at, node, deadline);
      HonouredParts(one.events, Poll(cfg, env, one.at, node, deadline).events);
    }
  }

  // ----- The whole call -----

  /** One run of instant local work and honoured timeouts that lasts fifteen seconds plus twice the
      timeout, and then ends in `StartupTimeoutError`. */
  lemma SlowestRun(cfg: Config, m: Moment, nodeId: string, timeout: TimeoutArg)
    requires Usable(cfg) && ValidNodeId(nodeId).Some? && GoodTimeout(timeout)
    ensures var env := SlowScript(m.step, timeout.f.r);
      var r := StartNode(cfg, env, m, nodeId, timeout);
      Instant(env) && Honoured(r.events) && r.out == Err(StartupTimeoutError) &&
      r.at.now == m.now + 15.0 + 2.0 * timeout.f.r
  {
    hide InTime, Honoured, GetStatus, Start, Poll, ValidNodeId;
    var (node, up) := (ValidNodeId(nodeId).value, timeout.f.r);
    var env := SlowScript(m.step, up);
    SlowStatus(cfg, m, node, up);
    var status := GetStatus(cfg, env, m, node);
    SlowStartRun(cfg, status.at, m.step, node, up);
    var start := Start(cfg, env, status.at, node, up);
    var t := Read(env, start.at);
    GonePoll(cfg, env, t, node, t.now + up);
    var poll := Poll(cfg, env, t, node, t.now + up);
    HonouredParts(start.events, poll.events);
    HonouredParts(status.events, start.events + poll.events);
  }

  /** Every run with instant local work and honoured timeouts is over within `b` seconds. */
  ghost predicate Bounds(cfg: Config, m: Moment, nodeId: string, timeout: TimeoutArg, b: real) {
    forall env: Script ::
      Instant(env) && Honoured(StartNode(cfg, env, m, nodeId, timeout).events) ==>
      StartNode(cfg, env, m, nodeId, timeout).at.now <= m.now + b
  }

  /** Fifteen seconds plus twice the timeout is the least bound there is: `timeout` itself is none. */
  lemma StartNodeBoundExact(cfg: Config, m: Moment, nodeId: string, timeout: TimeoutArg, b: real)
    requires Usable(cfg) && ValidNodeId(nodeId).Some? && GoodTimeout(timeout)
    ensures Bounds(cfg, m, nodeId, timeout, b) <==> b >= 15.0 + 2.0 * timeout.f.r
  {
    hide StartNode, Honoured, ValidNodeId, SlowScript, Instant;
    SlowestRun(cfg, m, nodeId, timeout);
    if b >= 15.0 + 2.0 * timeout.f.r {
      forall env: Script | Instant(env) && Honoured(StartNode(cfg, env, m, nodeId, timeout).events)
        ensures StartNode(cfg, env, m, nodeId, timeout).at.now <= m.now + b
      {
        StartNodeEnds(cfg, env, m, nodeId, timeout);
      }
    }
  }
}
