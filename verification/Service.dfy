/** The lifecycle service as the program that runs. Every method does exactly what ServiceSpec says. */
module Service {
  import opened Outcome
  import opened Domain
  import opened Runs
  import opened World
  import opened Health
  import opened AdapterSpec
  import opened Adapter
  import opened Validation
  import opened ServiceSpec

  class LifecycleService {
    const adapter: ComposeAdapter

    constructor (adapter: ComposeAdapter)
      ensures this.adapter == adapter
    {
      this.adapter := adapter;
    }

    method StartNode(nodeId: string, timeout: TimeoutArg) returns (out: Result<NodeStatus>)
      modifies adapter.machine
      ensures var machine := adapter.machine;
        Did(machine, old(machine.trace), out,
            ServiceSpec.StartNode(adapter.cfg, machine.env, old(machine.moment), nodeId, timeout))
    {
      hide InTime, GetStatus, Start, Poll, ValidNodeId;
      var node := ValidNodeId(nodeId);
      if node.None? {
        return Err(LifecycleError);
      }
      if !GoodTimeout(timeout) {
        return Err(Refusal(timeout, LifecycleError));
      }
      var status := adapter.Status(node.value);
      if status.Err? || status.value.state == HEALTHY {
        return status;
      }
      var started := adapter.Start(node.value, timeout.f.r);
      if started.Err? {
        return Err(started.error);
      }
      var now := adapter.machine.Monotonic();
      out := PollUntil(node.value, now + timeout.f.r);
    }

    /** The readiness loop. */
    method PollUntil(node: string, deadline: real) returns (out: Result<NodeStatus>)
      modifies adapter.machine
      ensures var machine := adapter.machine;
        Did(machine, old(machine.trace), out, Poll(adapter.cfg, machine.env, old(machine.moment), node, deadline))
    {
      hide PollOnce, Rounds;
      var machine := adapter.machine;
      ghost var whole := Poll(adapter.cfg, machine.env, machine.moment, node, deadline);
      ghost var done: seq<Event> := [];
      while true
        invariant machine.trace == old(machine.trace) + done
        invariant var rest := Poll(adapter.cfg, machine.env, machine.moment, node, deadline);
          whole == Run(rest.out, rest.at, done + rest.events)
        decreases Rounds(deadline - machine.moment.now)
      {
        ghost var one := PollOnce(adapter.cfg, machine.env, machine.moment, node, deadline);
        var round := ProbeAndWait(node, deadline);
        done := done + one.events;
        if round.Err? {
          return Err(round.error);
        }
        if round.value.Some? {
          return Ok(round.value.value);
        }
      }
    }

    /** The body of that loop: probe with what is left of the budget, then wait a little. */
    method ProbeAndWait(node: string, deadline: real) returns (out: Result<Option<NodeStatus>>)
      modifies adapter.machine
      ensures var machine := adapter.machine;
        Did(machine, old(machine.trace), out, PollOnce(adapter.cfg, machine.env, old(machine.moment), node, deadline))
    {
      hide InTime, ProbeHealth, Rounds;
      var machine := adapter.machine;
      var remaining := adapter.Remaining(deadline);
      if remaining <= 0.0 {
        return Err(StartupTimeoutError);
      }
      var budget := Least(2.0, remaining);
      machine.Note(budget);
      var health := adapter.ProbeNodeHealth(node, budget);
      if health.Err? {
        return Err(health.error);
      }
      if health.value.state == HEALTHY {
        return Ok(Some(NodeStatus(node, HEALTHY, health.value)));
      }
      if health.value.state == INCOMPATIBLE {
        return Err(NodeIncompatibleError);
      }
      var left := adapter.Remaining(deadline);
      if left <= 0.0 {
        return Err(StartupTimeoutError);
      }
      machine.Sleep(Least(0.5, left));
      out := Ok(None);
    }

    method StopNode(nodeId: string, timeout: TimeoutArg) returns (out: Result<NodeStatus>)
      modifies adapter.machine
      ensures var machine := adapter.machine;
        Did(machine, old(machine.trace), out,
            ServiceSpec.StopNode(adapter.cfg, machine.env, old(machine.moment), nodeId, timeout))
    {
      hide InTime, Stop, ValidNodeId;
      var node := ValidNodeId(nodeId);
      if node.None? {
        return Err(LifecycleError);
      }
      if !GoodTimeout(timeout) {
        return Err(Refusal(timeout, LifecycleError));
      }
      var stopped := adapter.Stop(node.value, timeout.f.r);
      if stopped.Err? {
        return Err(stopped.error);
      }
      out := Ok(NodeStatus(node.value, STOPPED, Bare(STOPPED, "node_stopped")));
    }
  }
}
