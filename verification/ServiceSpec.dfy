/** The lifecycle service over the Compose adapter, as functions of the world. */
module ServiceSpec {
  import opened Outcome
  import opened Domain
  import opened Runs
  import opened World
  import opened Health
  import opened AdapterSpec
  import opened Validation

  function Least(a: real, b: real): real { if a < b then a else b }

  function Ceil(x: real): int { -((-x).Floor) }

  /** How many half-second rounds fit before the deadline, the last one possibly cut short. */
  function Rounds(left: real): nat {
    if left <= 0.0 then 0 else Ceil(2.0 * left)
  }

  lemma RoundsDrop(left: real, next: real)
    requires left > 0.0 && (next <= 0.0 || next <= left - 0.5)
    ensures Rounds(next) + 1 <= Rounds(left)
  {
  }

  /** The moment after `time.sleep(nap)`. */
  function Awake(env: Script, u: Moment, nap: real): Moment {
    Moment(u.now + nap + env(u.step).lasts, u.step + 1)
  }

  /** One round of the polling loop: `Ok(None)` asks for another round. */
  function PollOnce(cfg: Config, env: Script, m: Moment, node: string, deadline: real)
    : (r: Run<Option<NodeStatus>, Event>)
    ensures r.out == Ok(None) ==> m.now < deadline && Rounds(deadline - r.at.now) + 1 <= Rounds(deadline - m.now)
    ensures r.at.now >= m.now
  {
    hide InTime, ProbeHealth, Rounds;
    var t := Read(env, m);
    var remaining := deadline - t.now;
    if remaining <= 0.0 then Run(Err(StartupTimeoutError), t, [])
    else
      var budget := Least(2.0, remaining);
      var probe := ProbeHealth(cfg, env, t, node, budget);
      var done := [Probing(t.now, budget)] + probe.events;
      ProbeTakesTime(cfg, env, t, node, budget);
      if probe.out.Err? then Run(Err(probe.out.error), probe.at, done)
      else if probe.out.value.state.HEALTHY? then
        Run(Ok(Some(NodeStatus(node, HEALTHY, probe.out.value))), probe.at, done)
      else if probe.out.value.state.INCOMPATIBLE? then Run(Err(NodeIncompatibleError), probe.at, done)
      else
        var u := Read(env, probe.at);
        var left := deadline - u.now;
        if left <= 0.0 then Run(Err(StartupTimeoutError), u, done)
        else
          var next := Awake(env, u, Least(0.5, left));
          RoundsDrop(deadline - m.now, deadline - next.now);
          Run(Ok(None), next, done + [Slept(Least(0.5, left), u.now, next.now)])
  }

  /** The polling loop of `start_node`. */
  function Poll(cfg: Config, env: Script, m: Moment, node: string, deadline: real): (r: Run<NodeStatus, Event>)
    ensures r.at.now >= m.now
    decreases Rounds(deadline - m.now)
  {
    hide PollOnce, Rounds;
    var one := PollOnce(cfg, env, m, node, deadline);
    if one.out.Err? then Failed(one)
    else if one.out.value.Some? then Run(Ok(one.out.value.value), one.at, one.events)
    else Then(one, Poll(cfg, env, one.at, node, deadline))
  }

  lemma ProbeTakesTime(cfg: Config, env: Script, m: Moment, node: string, budget: real)
    ensures ProbeHealth(cfg, env, m, node, budget).at.now >= m.now
  {
    hide ProbeHealth;
  }

  /** What follows the first status check of `start_node`. */
  function StartAndPoll(cfg: Config, env: Script, m: Moment, node: string, timeout: real): Run<NodeStatus, Event> {
    var up := Start(cfg, env, m, node, timeout);
    if up.out.Err? then Failed(up)
    else
      var t := Read(env, up.at);
      Then(up, Poll(cfg, env, t, node, t.now + timeout))
  }

  /** A caller's `timeout` argument as the service sees it. */
  predicate GoodTimeout(t: TimeoutArg) { t.Seconds? && PositiveFinite(t.f) }

  /** `start_node(node_id, timeout)` */
  function StartNode(cfg: Config, env: Script, m: Moment, nodeId: string, timeout: TimeoutArg): Run<NodeStatus, Event> {
    var node := ValidNodeId(nodeId);
    if node.None? then Run(Err(LifecycleError), m, [])
    else if !GoodTimeout(timeout) then Run(Err(Refusal(timeout, LifecycleError)), m, [])
    else
      var status := GetStatus(cfg, env, m, node.value);
      if status.out.Err? || status.out.value.state.HEALTHY? then status
      else Then(status, StartAndPoll(cfg, env, status.at, node.value, timeout.f.r))
  }

  /** `stop_node(node_id, timeout)` */
  function StopNode(cfg: Config, env: Script, m: Moment, nodeId: string, timeout: TimeoutArg): Run<NodeStatus, Event> {
    var node := ValidNodeId(nodeId);
    if node.None? then Run(Err(LifecycleError), m, [])
    else if !GoodTimeout(timeout) then Run(Err(Refusal(timeout, LifecycleError)), m, [])
    else
      var stop := Stop(cfg, env, m, node.value, timeout.f.r);
      if stop.out.Err? then Failed(stop)
      else Run(Ok(NodeStatus(node.value, STOPPED, Bare(STOPPED, "node_stopped"))), stop.at, stop.events)
  }
}
