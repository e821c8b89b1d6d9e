/** What every run of `start_node` and `stop_node` keeps: how many probes, when each is sent, how
    long the whole call may take, and what its outcome means. */
module ServiceSafety {
  import opened Outcome
  import opened Text
  import opened Json
  import opened Domain
  import Cidr
  import opened Process
  import opened Runs
  import opened World
  import opened Health
  import opened Containers
  import opened AdapterSpec
  import opened AdapterSafety
  import opened Validation
  import opened ServiceSpec
  import opened Unforeseen

  function CountProbes(es: seq<Event>): nat {
    if es == [] then 0 else (if es[0].Probing? then 1 else 0) + CountProbes(es[1..])
  }

  lemma {:induction false} CountJoined(a: seq<Event>, b: seq<Event>)
    ensures CountProbes(a + b) == CountProbes(a) + CountProbes(b)
  {
    if a == [] {
      assert a + b == b;
    } else {
      CountJoined(a[1..], b);
      assert (a + b)[1..] == a[1..] + b;
    }
  }

  lemma {:induction false} NoProbesCounted(es: seq<Event>)
    requires forall e :: e in es ==> !e.Probing?
    ensures CountProbes(es) == 0
  {
    if es == [] {
    } else {
      assert es[0] in es;
      NoProbesCounted(es[1..]);
    }
  }

  /** A probe is sent before the deadline, with a positive budget: two seconds, or what is left. A nap begins before
      it and takes half a second, or what is left. */
  predicate WellSent(e: Event, deadline: real) {
    (e.Probing? ==> e.at < deadline && e.budget == if deadline - e.at < 2.0 then deadline - e.at else 2.0) &&
    (e.Slept? ==> e.began < deadline && e.amount == if deadline - e.began < 0.5 then deadline - e.began else 0.5)
  }

  predicate AllWellSent(es: seq<Event>, deadline: real) {
    forall e :: e in es ==> WellSent(e, deadline)
  }

  lemma ProbeEvents(cfg: Config, env: Script, m: Moment, node: string, budget: real)
    ensures forall e :: e in ProbeHealth(cfg, env, m, node, budget).events ==> e.Ran?
    ensures CountProbes(ProbeHealth(cfg, env, m, node, budget).events) == 0
  {
    hide ProbeHealth, EndsBy;
    NoProbesCounted(ProbeHealth(cfg, env, m, node, budget).events);
  }

  /** One round sends at most one probe, well. */
  lemma RoundProbes(cfg: Config, env: Script, m: Moment, node: string, deadline: real)
    ensures var one := PollOnce(cfg, env, m, node, deadline);
      CountProbes(one.events) <= 1 && AllWellSent(one.events, deadline) &&
      (one.events != [] ==> m.now < deadline)
  {
    hide ProbeHealth, InTime;
    var t := Read(env, m);
    if deadline - t.now > 0.0 {
      var budget := Least(2.0, deadline - t.now);
      var probe := ProbeHealth(cfg, env, t, node, budget);
      ProbeEvents(cfg, env, t, node, budget);
      var note := [Probing(t.now, budget)];
      CountJoined(note, probe.events);
      assert CountProbes(note) == 1 by { assert note[1..] == []; }
      assert AllWellSent(note + probe.events, deadline);
      var u := Read(env, probe.at);
      if deadline - u.now > 0.0 {
        var nap := Least(0.5, deadline - u.now);
        var sleep := [Slept(nap, u.now, Awake(env, u, nap).now)];
        NoProbesCounted(sleep);
        CountJoined(note + probe.events, sleep);
        assert AllWellSent(note + probe.events + sleep, deadline);
      }
    }
  }

  /** The loop ends after at most one probe for every half second of its budget, begun or whole,
      each of them is sent before the deadline with a budget of min(2, what is left), and each nap takes
      min(0.5, what is left). */
  lemma {:induction false} PollProbes(cfg: Config, env: Script, m: Moment, node: string, deadline: real)
    ensures var r := Poll(cfg, env, m, node, deadline);
      CountProbes(r.events) <= Rounds(deadline - m.now) && AllWellSent(r.events, deadline)
    decreases Rounds(deadline - m.now)
  {
    hide PollOnce, WellSent;
    RoundProbes(cfg, env, m, node, deadline);
    RoundsPositive(deadline - m.now);
    var one := PollOnce(cfg, env, m, node, deadline);
    if one.out == Ok(None) {
      PollProbes(cfg, env, one.at, node, deadline);
      CountJoined(one.events, Poll(cfg, env, one.at, node, deadline).events);
    }
  }

  lemma StatusSendsNone(cfg: Config, env: Script, m: Moment, node: string)
    ensures CountProbes(GetStatus(cfg, env, m, node).events) == 0
  {
    hide GetStatus, ReadOnly;
    StatusSafe(cfg, env, m, node);
    ReadOnlyIsRun(cfg, GetStatus(cfg, env, m, node).events);
    NoProbesCounted(GetStatus(cfg, env, m, node).events);
  }

  lemma ReadOnlyIsRun(cfg: Config, es: seq<Event>)
    requires ReadOnly(cfg, es)
    ensures forall e :: e in es ==> e.Ran?
  {
    hide SawRunning;
  }

  lemma StartSendsNone(cfg: Config, env: Script, m: Moment, node: string, timeout: real)
    ensures CountProbes(Start(cfg, env, m, node, timeout).events) == 0
  {
    hide Start, EndsBy;
    NoProbesCounted(Start(cfg, env, m, node, timeout).events);
  }

  /** `start_node` sends at most one probe for every half second of its timeout, begun or whole. */
  lemma StartNodeProbes(cfg: Config, env: Script, m: Moment, nodeId: string, timeout: TimeoutArg)
    ensures CountProbes(StartNode(cfg, env, m, nodeId, timeout).events) <=
            if GoodTimeout(timeout) then Ceil(2.0 * timeout.f.r) else 0
  {
    hide GetStatus, Start, Poll, ValidNodeId;
    var node := ValidNodeId(nodeId);
    if node.Some? && GoodTimeout(timeout) {
      var status := GetStatus(cfg, env, m, node.value);
      StatusSendsNone(cfg, env, m, node.value);
      var up := Start(cfg, env, status.at, node.value, timeout.f.r);
      StartSendsNone(cfg, env, status.at, node.value, timeout.f.r);
      var t := Read(env, up.at);
      var poll := Poll(cfg, env, t, node.value, t.now + timeout.f.r);
      PollProbes(cfg, env, t, node.value, t.now + timeout.f.r);
      CountJoined(up.events, poll.events);
      CountJoined(status.events, up.events + poll.events);
      CountJoined(status.events, up.events);
    }
  }

  lemma RoundsPositive(left: real)
    ensures left > 0.0 ==> Rounds(left) >= 1
  {
  }

  // ----- How long -----

  lemma HonouredPrefix(a: seq<Event>, b: seq<Event>, c: seq<Event>)
    ensures Honoured(a + b + c) <==> Honoured(a) && Honoured(b) && Honoured(c)
  {
    hide Honoured;
    HonouredParts(a + b, c);
    HonouredParts(a, b);
  }

  lemma ProbeEnds(cfg: Config, env: Script, m: Moment, node: string, budget: real)
    requires Instant(env) && budget > 0.0
    ensures var r := ProbeHealth(cfg, env, m, node, budget);
      Honoured(r.events) ==> r.at.now <= m.now + budget
  {
    hide ProbeHealth, Honoured, Timely;
    assert env(m.step).drift == 0.0;
  }

  lemma RoundEnds(cfg: Config, env: Script, m: Moment, node: string, deadline: real)
    requires Instant(env) && Honoured(PollOnce(cfg, env, m, node, deadline).events)
    ensures PollOnce(cfg, env, m, node, deadline).at.now <= Later(m.now, deadline)
  {
    hide ProbeHealth, InTime, Honoured;
    var t := Read(env, m);
    assert env(m.step).drift == 0.0;
    if deadline - t.now > 0.0 {
      var budget := Least(2.0, deadline - t.now);
      var probe := ProbeHealth(cfg, env, t, node, budget);
      var note := [Probing(t.now, budget)];
      var u := Read(env, probe.at);
      assert env(probe.at.step).drift == 0.0;
      var nap := Least(0.5, deadline - u.now);
      var sleep := [Slept(nap, u.now, Awake(env, u, nap).now)];
      HonouredPrefix(note, probe.events, sleep);
      HonouredParts(note, probe.events);
      ProbeEnds(cfg, env, t, node, budget);
      SleepEnds(sleep[0]);
    }
  }

  lemma SleepEnds(e: Event)
    requires e.Slept?
    ensures Honoured([e]) ==> e.ended == e.began + e.amount
  {
    assert e in [e];
  }

  lemma {:induction false} PollEnds(cfg: Config, env: Script, m: Moment, node: string, deadline: real)
    requires Instant(env) && Honoured(Poll(cfg, env, m, node, deadline).events)
    ensures Poll(cfg, env, m, node, deadline).at.now <= Later(m.now, deadline)
    decreases Rounds(deadline - m.now)
  {
    hide PollOnce, Honoured, Rounds;
    var one := PollOnce(cfg, env, m, node, deadline);
    if one.out == Ok(None) {
      HonouredParts(one.events, Poll(cfg, env, one.at, node, deadline).events);
      PollEnds(cfg, env, one.at, node, deadline);
    }
    RoundEnds(cfg, env, m, node, deadline);
  }

  lemma StatusEnds(cfg: Config, env: Script, m: Moment, node: string)
    requires Instant(env) && Honoured(GetStatus(cfg, env, m, node).events)
    ensures GetStatus(cfg, env, m, node).at.now <= m.now + 15.0
  {
    hide GetState, ProbeHealth, Honoured, Timely;
    assert env(m.step).drift == 0.0;
    var st := GetState(cfg, env, m, node);
    var probe := ProbeHealth(cfg, env, st.at, node, 5.0);
    HonouredParts(st.events, probe.events);
    ProbeEnds(cfg, env, st.at, node, 5.0);
  }

  lemma StartEnds(cfg: Config, env: Script, m: Moment, node: string, timeout: real)
    requires Instant(env) && timeout > 0.0
    ensures var r := Start(cfg, env, m, node, timeout);
      Honoured(r.events) ==> r.at.now <= m.now + timeout
  {
    hide Start, Honoured, Timely;
    assert env(m.step).drift == 0.0;
  }

  lemma StartAndPollEnds(cfg: Config, env: Script, m: Moment, node: string, timeout: real)
    requires Instant(env) && timeout > 0.0 && Honoured(StartAndPoll(cfg, env, m, node, timeout).events)
    ensures StartAndPoll(cfg, env, m, node, timeout).at.now <= m.now + 2.0 * timeout
  {
    hide Start, Poll, Honoured;
    var up := Start(cfg, env, m, node, timeout);
    StartEnds(cfg, env, m, node, timeout);
    if up.out.Ok? {
      var t := Read(env, up.at);
      assert env(up.at.step).drift == 0.0;
      var poll := Poll(cfg, env, t, node, t.now + timeout);
      HonouredParts(up.events, poll.events);
      PollEnds(cfg, env, t, node, t.now + timeout);
    }
  }

  /** With instant local work and honoured timeouts, `start_node` is over within fifteen seconds
      (ten for the state check, five for the first probe) plus twice its timeout. */
  lemma StartNodeEnds(cfg: Config, env: Script, m: Moment, nodeId: string, timeout: TimeoutArg)
    requires Instant(env) && Honoured(StartNode(cfg, env, m, nodeId, timeout).events)
    ensures StartNode(cfg, env, m, nodeId, timeout).at.now <=
      m.now + if GoodTimeout(timeout) then 15.0 + 2.0 * timeout.f.r else 0.0
  {
    hide GetStatus, StartAndPoll, Honoured, ValidNodeId;
    var node := ValidNodeId(nodeId);
    if node.Some? && GoodTimeout(timeout) {
      var status := GetStatus(cfg, env, m, node.value);
      var rest := StartAndPoll(cfg, env, status.at, node.value, timeout.f.r);
      HonouredParts(status.events, rest.events);
      StatusEnds(cfg, env, m, node.value);
      if !(status.out.Err? || status.out.value.state.HEALTHY?) {
        StartAndPollEnds(cfg, env, status.at, node.value, timeout.f.r);
      }
    }
  }

  // ----- What the outcome means -----

  /** The last thing done was a delegated probe whose report shows the expected chain and version. */
  predicate EndsHealthy(cfg: Config, node: string, es: seq<Event>) {
    es != [] && var last := es[|es| - 1];
    Succeeded(last) && last.cmd == RunStatus(node) && ShowsHealthy(cfg.lib, last.reply.out)
  }

  /** A status as `start_node` may return it. */
  predicate HealthyStatus(node: string, s: NodeStatus) {
    s.nodeId == node && s.state == HEALTHY && s.health.state == HEALTHY
  }

  lemma EndsHealthyLater(cfg: Config, node: string, a: seq<Event>, b: seq<Event>)
    requires EndsHealthy(cfg, node, b)
    ensures EndsHealthy(cfg, node, a + b)
  {
    hide ShowsHealthy;
    assert (a + b)[|a + b| - 1] == b[|b| - 1];
  }

  lemma ProbeEndsHealthy(cfg: Config, env: Script, m: Moment, node: string, budget: real)
    ensures var r := ProbeHealth(cfg, env, m, node, budget);
      r.out.Ok? && r.out.value.state == HEALTHY ==> EndsHealthy(cfg, node, r.events)
  {
    hide ProbeHealth, ShowsHealthy, LookShape;
    ProbeShape(cfg, env, m, node, budget);
  }

  lemma RoundHealthy(cfg: Config, env: Script, m: Moment, node: string, deadline: real)
    ensures var one := PollOnce(cfg, env, m, node, deadline);
      one.out.Ok? && one.out.value.Some? ==>
        HealthyStatus(node, one.out.value.value) && EndsHealthy(cfg, node, one.events)
  {
    hide ProbeHealth, EndsHealthy, InTime;
    var t := Read(env, m);
    var budget := Least(2.0, deadline - t.now);
    ProbeEndsHealthy(cfg, env, t, node, budget);
    var probe := ProbeHealth(cfg, env, t, node, budget);
    if probe.out.Ok? && probe.out.value.state == HEALTHY {
      EndsHealthyLater(cfg, node, [Probing(t.now, budget)], probe.events);
    }
  }

  lemma {:induction false} PollHealthy(cfg: Config, env: Script, m: Moment, node: string, deadline: real)
    ensures var r := Poll(cfg, env, m, node, deadline);
      r.out.Ok? ==> HealthyStatus(node, r.out.value) && EndsHealthy(cfg, node, r.events)
    decreases Rounds(deadline - m.now)
  {
    hide PollOnce, EndsHealthy, Rounds;
    RoundHealthy(cfg, env, m, node, deadline);
    var one := PollOnce(cfg, env, m, node, deadline);
    if one.out == Ok(None) {
      PollHealthy(cfg, env, one.at, node, deadline);
      var rest := Poll(cfg, env, one.at, node, deadline);
      if rest.out.Ok? {
        EndsHealthyLater(cfg, node, one.events, rest.events);
      }
    }
  }

  /** A normal return of `start_node` is a HEALTHY status of the named node, and the last thing the
      call did was to run a probe whose report shows the expected chain and version. */
  lemma StartNodeHealthy(cfg: Config, env: Script, m: Moment, nodeId: string, timeout: TimeoutArg)
    requires StartNode(cfg, env, m, nodeId, timeout).out.Ok?
    ensures ValidNodeId(nodeId).Some? && var r := StartNode(cfg, env, m, nodeId, timeout);
      HealthyStatus(ValidNodeId(nodeId).value, r.out.value) && EndsHealthy(cfg, ValidNodeId(nodeId).value, r.events)
  {
    hide GetStatus, Start, Poll, ValidNodeId, EndsHealthy;
    var node := ValidNodeId(nodeId).value;
    var status := GetStatus(cfg, env, m, node);
    StatusHealthy(cfg, env, m, node);
    if status.out.value.state != HEALTHY {
      var up := Start(cfg, env, status.at, node, timeout.f.r);
      var t := Read(env, up.at);
      var poll := Poll(cfg, env, t, node, t.now + timeout.f.r);
      PollHealthy(cfg, env, t, node, t.now + timeout.f.r);
      EndsHealthyLater(cfg, node, up.events, poll.events);
      EndsHealthyLater(cfg, node, status.events, up.events + poll.events);
    }
  }

  lemma StatusHealthy(cfg: Config, env: Script, m: Moment, node: string)
    ensures var r := GetStatus(cfg, env, m, node);
      r.out.Ok? && r.out.value.state == HEALTHY ==>
        HealthyStatus(node, r.out.value) && EndsHealthy(cfg, node, r.events)
  {
    hide GetState, ProbeHealth, ShowsHealthy;
    StatusSafe(cfg, env, m, node);
  }

  /** Errors the adapter itself can raise from `get_status`, `start` and `probe_health`. */
  predicate PortError(e: Failure) {
    e.RuntimeUnavailableError? || e.LifecycleError? || e.StartupTimeoutError? || e.OtherException?
  }

  lemma {:induction false} ScanErrors(cfg: Config, env: Script, m: Moment, deadline: real, target: Cidr.Network,
                                      own: string, names: seq<string>)
    ensures var r := ScanNetworks(cfg.lib, env, m, deadline, target, own, names);
      r.out.Err? ==> PortError(r.out.error)
    decreases |names|
  {
    hide InTime, InspectNetwork;
    if names == [] {
    } else {
      ScanErrors(cfg, env, m, deadline, target, own, names[1..]);
      InspectionErrors(cfg, env, m, deadline, target, names[0]);
      var one := InspectNetwork(cfg.lib, env, m, deadline, target, names[0]);
      ScanErrors(cfg, env, one.at, deadline, target, own, names[1..]);
    }
  }

  lemma InspectionErrors(cfg: Config, env: Script, m: Moment, deadline: real, target: Cidr.Network, name: string)
    ensures var r := InspectNetwork(cfg.lib, env, m, deadline, target, name);
      r.out.Err? ==> PortError(r.out.error)
  {
    hide InTime, Words, CheckSubnets;
    var one := Issue(env, m, deadline, NetworkInspect(name), RuntimeUnavailableError);
    if one.out.Ok? && one.out.value.Exited? {
      SubnetErrors(cfg.lib, target, Words(one.out.value.out));
    }
  }

  lemma StepErrors(k: nat, cfg: Config, env: Script, m: Moment, node: string, deadline: real)
    requires k < 4
    ensures var r := StartStep(k, cfg, env, m, node, deadline); r.out.Err? ==> PortError(r.out.error)
  {
    hide InTime, SaysNotFound, NetworkNames, ScanNetworks;
    if k == 1 && cfg.lib.network(cfg.subnet).Some? {
      var list := Issue(env, m, deadline, NetworkList, RuntimeUnavailableError);
      if list.out.Ok? && list.out.value.Exited? {
        ScanErrors(cfg, env, list.at, deadline, cfg.lib.network(cfg.subnet).value, ProjectNetwork(node),
                   NetworkNames(list.out.value.out));
      }
    }
  }

  lemma {:induction false} StartErrors(k: nat, cfg: Config, env: Script, m: Moment, node: string, deadline: real)
    requires k <= 4
    ensures var r := StartFrom(k, cfg, env, m, node, deadline); r.out.Err? ==> PortError(r.out.error)
    decreases 4 - k
  {
    hide StartStep;
    if k < 4 {
      StepErrors(k, cfg, env, m, node, deadline);
      StartErrors(k + 1, cfg, env, StartStep(k, cfg, env, m, node, deadline).at, node, deadline);
    }
  }

  /** The errors of a look at the node, none of which is `StartupTimeoutError`. */
  predicate LookError(e: Failure) { e.RuntimeUnavailableError? || e.OtherException? }

  lemma ProbeErrors(cfg: Config, env: Script, m: Moment, node: string, budget: real)
    ensures var r := ProbeHealth(cfg, env, m, node, budget); r.out.Err? ==> LookError(r.out.error)
  {
    hide ProbeBy;
    if budget > 0.0 {
      var t := Read(env, m);
      ProbeByErrors(cfg, env, t, node, t.now + budget);
    }
  }

  lemma ProbeByErrors(cfg: Config, env: Script, t: Moment, node: string, deadline: real)
    ensures var r := ProbeBy(cfg, env, t, node, deadline); r.out.Err? ==> LookError(r.out.error)
  {
    hide CheckRuntime, StateBy, DelegatedProbe, InTime;
    RuntimeShape(env, t, deadline);
    var rt := CheckRuntime(env, t, deadline);
    StateHasShape(cfg, env, rt.at, node, deadline);
    HealthErrors(cfg, env, StateBy(cfg, env, rt.at, node, deadline).at, node, deadline);
  }

  lemma HealthErrors(cfg: Config, env: Script, m: Moment, node: string, deadline: real)
    ensures var r := DelegatedProbe(cfg, env, m, node, deadline); r.out.Err? ==> r.out.error == OtherException
  {
    hide HostHealth, HasPart, InTime;
  }

  lemma {:induction false} PollErrors(cfg: Config, env: Script, m: Moment, node: string, deadline: real)
    ensures var r := Poll(cfg, env, m, node, deadline);
      r.out.Err? ==> r.out.error in {StartupTimeoutError, NodeIncompatibleError} || LookError(r.out.error)
    decreases Rounds(deadline - m.now)
  {
    hide ProbeHealth, Rounds, InTime;
    var t := Read(env, m);
    ProbeErrors(cfg, env, t, node, Least(2.0, deadline - t.now));
    var one := PollOnce(cfg, env, m, node, deadline);
    if one.out == Ok(None) {
      PollErrors(cfg, env, one.at, node, deadline);
    }
  }

  /** `get_status` never raises `StartupTimeoutError`, nor anything else but what a look raises. */
  lemma StatusErrors(cfg: Config, env: Script, m: Moment, node: string)
    ensures var r := GetStatus(cfg, env, m, node); r.out.Err? ==> LookError(r.out.error)
  {
    hide StateBy, ProbeHealth;
    var t := Read(env, m);
    StateHasShape(cfg, env, t, node, t.now + 10.0);
    ProbeErrors(cfg, env, GetState(cfg, env, m, node).at, node, 5.0);
  }

  /** Every run of `start_node`: bad arguments are refused before anything is done; otherwise it ends in a
      HEALTHY status, in `NodeIncompatibleError`, or in an error of the adapter (among which
      `StartupTimeoutError`). Nothing else gets out, but for what a command raised unforeseen and for the
      `OverflowError` of a huge integer as timeout, and these exactly then. */
  lemma StartNodeOutcomes(cfg: Config, env: Script, m: Moment, nodeId: string, timeout: TimeoutArg)
    ensures var (r, node) := (StartNode(cfg, env, m, nodeId, timeout), ValidNodeId(nodeId));
      (node.None? ==> r == Run(Err(LifecycleError), m, [])) &&
      (node.Some? && !(timeout.Seconds? && timeout.f.Finite? && timeout.f.r > 0.0) ==>
        r == Run(Err(if timeout.HugeInt? then OtherException else LifecycleError), m, [])) &&
      (r.out == Err(OtherException) <==> (node.Some? && timeout.HugeInt?) || SomethingRaised(r.events)) &&
      ((r.out.Ok? && r.out.value.state == HEALTHY) ||
       (r.out.Err? && (r.out.error == NodeIncompatibleError || PortError(r.out.error))))
  {
    hide GetStatus, StartAndPoll, ValidNodeId, EndsHealthy, SomethingRaised;
    NothingRaised();
    var node := ValidNodeId(nodeId);
    if node.Some? && GoodTimeout(timeout) {
      var status := GetStatus(cfg, env, m, node.value);
      StatusErrors(cfg, env, m, node.value);
      StatusTransparent(cfg, env, m, node.value);
      var rest := StartAndPoll(cfg, env, status.at, node.value, timeout.f.r);
      StartAndPollErrors(cfg, env, status.at, node.value, timeout.f.r);
      StartAndPollTransparent(cfg, env, status.at, node.value, timeout.f.r);
      RaisedJoined(status.events, rest.events);
      if StartNode(cfg, env, m, nodeId, timeout).out.Ok? {
        StartNodeHealthy(cfg, env, m, nodeId, timeout);
      }
    }
  }

  lemma StartAndPollErrors(cfg: Config, env: Script, m: Moment, node: string, timeout: real)
    ensures var r := StartAndPoll(cfg, env, m, node, timeout);
      r.out.Err? ==> r.out.error == NodeIncompatibleError || PortError(r.out.error)
  {
    hide Start, Poll;
    StartingErrors(cfg, env, m, node, timeout);
    var t := Read(env, Start(cfg, env, m, node, timeout).at);
    PollErrors(cfg, env, t, node, t.now + timeout);
  }

  lemma StartAndPollTransparent(cfg: Config, env: Script, m: Moment, node: string, timeout: real)
    ensures Transparent(StartAndPoll(cfg, env, m, node, timeout))
  {
    hide StartFrom, Poll, SomethingRaised;
    var s := Read(env, m);
    StartTransparent(0, cfg, env, s, node, s.now + timeout);
    var up := Start(cfg, env, m, node, timeout);
    if up.out.Ok? {
      var t := Read(env, up.at);
      PollTransparent(cfg, env, t, node, t.now + timeout);
      TransparentThen(up, Poll(cfg, env, t, node, t.now + timeout));
    }
  }

  lemma StartingErrors(cfg: Config, env: Script, m: Moment, node: string, timeout: real)
    ensures var r := Start(cfg, env, m, node, timeout); r.out.Err? ==> PortError(r.out.error)
  {
    hide StartFrom;
    var t := Read(env, m);
    StartErrors(0, cfg, env, t, node, t.now + timeout);
  }

  /** A node that is already healthy is left alone: `start_node` then changes nothing. */
  lemma HealthyLeftAlone(cfg: Config, env: Script, m: Moment, nodeId: string, timeout: TimeoutArg)
    requires ValidNodeId(nodeId).Some? && GoodTimeout(timeout)
    requires var status := GetStatus(cfg, env, m, ValidNodeId(nodeId).value);
      status.out.Ok? && status.out.value.state == HEALTHY
    ensures ReadOnly(cfg, StartNode(cfg, env, m, nodeId, timeout).events)
  {
    hide GetStatus, ReadOnly, ValidNodeId;
    StatusSafe(cfg, env, m, ValidNodeId(nodeId).value);
  }

  // ----- At most one `up` -----

  predicate OneUp(es: seq<Event>) {
    forall i, j :: 0 <= i < |es| && 0 <= j < |es| && IsUp(es[i]) && IsUp(es[j]) ==> i == j
  }

  lemma OneUpAround(a: seq<Event>, b: seq<Event>, c: seq<Event>)
    requires NoUp(a) && OneUp(b) && NoUp(c)
    ensures OneUp(a + (b + c))
  {
    var es := a + (b + c);
    forall i, j | 0 <= i < |es| && 0 <= j < |es| && IsUp(es[i]) && IsUp(es[j]) ensures i == j {
      UpIsInside(a, b, c, i);
      UpIsInside(a, b, c, j);
    }
  }

  lemma UpIsInside(a: seq<Event>, b: seq<Event>, c: seq<Event>, i: nat)
    requires NoUp(a) && NoUp(c) && i < |a + (b + c)| && IsUp((a + (b + c))[i])
    ensures |a| <= i < |a| + |b| && (a + (b + c))[i] == b[i - |a|]
  {
    hide IsUp;
    var e := (a + (b + c))[i];
    assert e !in a && e !in c;
  }

  lemma ReadOnlyHasNoUp(cfg: Config, es: seq<Event>)
    requires ReadOnly(cfg, es)
    ensures NoUp(es)
  {
  }

  lemma RoundHasNoUp(cfg: Config, env: Script, m: Moment, node: string, deadline: real)
    ensures NoUp(PollOnce(cfg, env, m, node, deadline).events)
  {
    hide ProbeHealth, ReadOnly, InTime;
    var t := Read(env, m);
    var budget := Least(2.0, deadline - t.now);
    ProbeIsReadOnly(cfg, env, t, node, budget);
    ReadOnlyHasNoUp(cfg, ProbeHealth(cfg, env, t, node, budget).events);
  }

  lemma {:induction false} PollHasNoUp(cfg: Config, env: Script, m: Moment, node: string, deadline: real)
    ensures NoUp(Poll(cfg, env, m, node, deadline).events)
    decreases Rounds(deadline - m.now)
  {
    hide PollOnce, Rounds;
    RoundHasNoUp(cfg, env, m, node, deadline);
    var one := PollOnce(cfg, env, m, node, deadline);
    if one.out == Ok(None) {
      PollHasNoUp(cfg, env, one.at, node, deadline);
    }
  }

  lemma StartHasOneUp(cfg: Config, env: Script, m: Moment, node: string, timeout: real)
    ensures OneUp(Start(cfg, env, m, node, timeout).events)
  {
    hide Start, Preflight;
    var d, s, b, a := StartSafe(cfg, env, m, node, timeout);
    var (es, pre) := (Start(cfg, env, m, node, timeout).events, d + (s + (b + a)));
    if !NoUp(es) {
      assert forall i :: 0 <= i < |pre| ==> es[i] == es[..|pre|][i] == pre[i];
    }
  }

  /** `start_node` runs at most one `up`, however long it polls. */
  lemma StartNodeHasOneUp(cfg: Config, env: Script, m: Moment, nodeId: string, timeout: TimeoutArg)
    ensures OneUp(StartNode(cfg, env, m, nodeId, timeout).events)
  {
    hide GetStatus, Start, Poll, ValidNodeId, ReadOnly, IsUp, NoUp, OneUp;
    NothingHasNoUp();
    var node := ValidNodeId(nodeId);
    if node.Some? && GoodTimeout(timeout) {
      var status := GetStatus(cfg, env, m, node.value);
      StatusSafe(cfg, env, m, node.value);
      ReadOnlyHasNoUp(cfg, status.events);
      var up := Start(cfg, env, status.at, node.value, timeout.f.r);
      StartHasOneUp(cfg, env, status.at, node.value, timeout.f.r);
      var t := Read(env, up.at);
      var poll := Poll(cfg, env, t, node.value, t.now + timeout.f.r);
      PollHasNoUp(cfg, env, t, node.value, t.now + timeout.f.r);
      OneUpAround(status.events, up.events, poll.events);
      OneUpAround(status.events, up.events, []);
      OneUpAround(status.events, [], []);
      assert up.events + [] == up.events && status.events + ([] + []) == status.events;
    }
  }

  lemma NothingHasNoUp()
    ensures NoUp([]) && OneUp([])
  {
  }

  // ----- Polling cut short -----

  /** What was done since the last probe was dispatched. */
  function LastProbe(es: seq<Event>): seq<Event> {
    if es == [] then []
    else if es[|es| - 1].Probing? then []
    else LastProbe(es[..|es| - 1]) + [es[|es| - 1]]
  }

  lemma {:induction false} LastProbeAfter(a: seq<Event>, e: Event, b: seq<Event>)
    requires e.Probing? && forall x :: x in b ==> !x.Probing?
    ensures LastProbe(a + [e] + b) == b
  {
    var es := a + [e] + b;
    if b == [] {
      assert es[|es| - 1] == e;
    } else {
      var n := |b| - 1;
      assert es[|es| - 1] == b[n] && es[..|es| - 1] == a + [e] + b[..n];
      LastProbeAfter(a, e, b[..n]);
    }
  }

  /** Whatever was done before the first of some later probes does not matter. */
  lemma {:induction false} LastProbeLater(a: seq<Event>, b: seq<Event>)
    requires exists e :: e in b && e.Probing?
    ensures LastProbe(a + b) == LastProbe(b)
  {
    var n := |b| - 1;
    var es := a + b;
    assert es[|es| - 1] == b[n] && es[..|es| - 1] == a + b[..n];
    if !b[n].Probing? {
      assert exists e :: e in b[..n] && e.Probing?;
      LastProbeLater(a, b[..n]);
    }
  }

  /** A round that lost sight of the node in its probe, and no other, ends with that error. */
  lemma RoundCutShort(cfg: Config, env: Script, m: Moment, node: string, deadline: real)
    ensures var one := PollOnce(cfg, env, m, node, deadline);
      (one.out == Err(RuntimeUnavailableError) <==> LostSight(cfg, LastProbe(one.events))) &&
      (one.events == [] ==> one.out == Err(StartupTimeoutError)) &&
      (one.events != [] ==> one.events[0].Probing?) &&
      (one.out == Ok(None) ==> one.events != [] && one.events[|one.events| - 1].Slept?)
  {
    hide ProbeHealth, InTime, LostSight, Rounds, LastProbe;
    NoSight(cfg);
    var t := Read(env, m);
    if deadline - t.now > 0.0 {
      var budget := Least(2.0, deadline - t.now);
      var probe := ProbeHealth(cfg, env, t, node, budget);
      ProbeEvents(cfg, env, t, node, budget);
      ProbeRaisesIff(cfg, env, t, node, budget);
      var note := Probing(t.now, budget);
      var u := Read(env, probe.at);
      var nap := Least(0.5, deadline - u.now);
      var sleep := Slept(nap, u.now, Awake(env, u, nap).now);
      LastOfRound(cfg, note, probe.events, sleep);
    }
  }

  lemma LastOfRound(cfg: Config, note: Event, es: seq<Event>, sleep: Event)
    requires note.Probing? && sleep.Slept? && forall e :: e in es ==> e.Ran?
    ensures LastProbe([note] + es) == es && LastProbe([note] + es + [sleep]) == es + [sleep]
    ensures !LostSight(cfg, es + [sleep])
  {
    hide LostSight, LastProbe;
    LastProbeAfter([], note, es);
    assert [] + [note] + es == [note] + es;
    LastProbeAfter([], note, es + [sleep]);
    assert [] + [note] + (es + [sleep]) == [note] + es + [sleep];
    SleepIsNoSight(cfg, es, sleep);
  }

  lemma NoSight(cfg: Config)
    ensures !LostSight(cfg, []) && LastProbe([]) == []
  {
  }

  lemma SleepIsNoSight(cfg: Config, es: seq<Event>, e: Event)
    requires e.Slept?
    ensures !LostSight(cfg, es + [e])
  {
    hide Observed, LiveDaemon;
    assert e in es + [e];
  }

  /** The polling loop ends in `RuntimeUnavailableError`, whatever time is left, exactly when its last probe
      found the daemon alive but observed no state. */
  lemma {:induction false} PollCutShortIff(cfg: Config, env: Script, m: Moment, node: string, deadline: real)
    ensures var r := Poll(cfg, env, m, node, deadline);
      r.out == Err(RuntimeUnavailableError) <==> LostSight(cfg, LastProbe(r.events))
    decreases Rounds(deadline - m.now)
  {
    hide PollOnce, LostSight, LastProbe, Rounds;
    RoundCutShort(cfg, env, m, node, deadline);
    var one := PollOnce(cfg, env, m, node, deadline);
    if one.out == Ok(None) {
      PollCutShortIff(cfg, env, one.at, node, deadline);
      var rest := Poll(cfg, env, one.at, node, deadline);
      PollBegins(cfg, env, one.at, node, deadline);
      if rest.events == [] {
        assert one.events + rest.events == one.events;
        NoSight(cfg);
      } else {
        assert rest.events[0] in rest.events;
        LastProbeLater(one.events, rest.events);
      }
    }
  }

  lemma PollBegins(cfg: Config, env: Script, m: Moment, node: string, deadline: real)
    ensures var r := Poll(cfg, env, m, node, deadline);
      (r.events == [] ==> r.out == Err(StartupTimeoutError)) && (r.events != [] ==> r.events[0].Probing?)
  {
    hide PollOnce, LostSight, LastProbe, Rounds;
    RoundCutShort(cfg, env, m, node, deadline);
  }

  /** A daemon check that takes two seconds, which is all a probe may take. */
  function TwoSecondDaemon(): (env: Script)
    ensures forall n: nat :: env(n) == Tick(0.0, 2.0, Exited(0, "", ""), true)
  {
    n => Tick(0.0, 2.0, Exited(0, "", ""), true)
  }

  /** Such a check, though it honours its timeout, ends the polling after two seconds of any budget. */
  lemma PollCutShort(cfg: Config, node: string, deadline: real)
    requires deadline >= 2.0
    ensures var r := Poll(cfg, TwoSecondDaemon(), Moment(0.0, 0), node, deadline);
      r.out == Err(RuntimeUnavailableError) && r.at.now == 2.0 && Honoured(r.events)
  {
    hide InTime, ProbeHealth, Rounds, Honoured;
    var env := TwoSecondDaemon();
    ProbeCutShort(cfg, node);
    var probe := ProbeHealth(cfg, env, Moment(0.0, 1), node, 2.0);
    HonouredParts([Probing(0.0, 2.0)], probe.events);
    ProbingHonoured(0.0, 2.0);
    assert PollOnce(cfg, env, Moment(0.0, 0), node, deadline) ==
           Run(Err(RuntimeUnavailableError), probe.at, [Probing(0.0, 2.0)] + probe.events);
  }

  lemma ProbingHonoured(at: real, budget: real)
    ensures Honoured([Probing(at, budget)])
  {
  }

  lemma ProbeCutShort(cfg: Config, node: string)
    ensures var r := ProbeHealth(cfg, TwoSecondDaemon(), Moment(0.0, 1), node, 2.0);
      r.out == Err(RuntimeUnavailableError) && r.at.now == 2.0 && Honoured(r.events)
  {
    hide InTime, StateBy, CheckRuntime, Honoured;
    var env := TwoSecondDaemon();
    LiveRuntime(env, Moment(0.0, 2), 2.0);
    var rt := CheckRuntime(env, Moment(0.0, 2), 2.0);
    LateState(cfg, env, rt.at, node, 2.0);
    assert rt.events + [] == rt.events;
  }

  // ----- stop_node -----

  lemma StateErrors(cfg: Config, env: Script, m: Moment, node: string, deadline: real)
    ensures var r := StateBy(cfg, env, m, node, deadline); r.out.Err? ==> LookError(r.out.error)
  {
    hide StateBy, PsState;
    StateHasShape(cfg, env, m, node, deadline);
  }

  lemma StopRunningErrors(cfg: Config, env: Script, m: Moment, node: string, deadline: real)
    ensures var r := StopAndCheck(cfg, env, m, node, deadline);
      r.out.Err? ==> r.out.error.ShutdownTimeoutError? || r.out.error.LifecycleError? || LookError(r.out.error)
  {
    hide StateBy, InTime, Grace, Issue;
    var t := Read(env, m);
    var halt := Issue(env, t, deadline, ComposeStop(node, Grace(deadline - t.now)), ShutdownTimeoutError);
    StateErrors(cfg, env, halt.at, node, deadline);
  }

  lemma StopByErrors(cfg: Config, env: Script, m: Moment, node: string, deadline: real)
    ensures var r := StopBy(cfg, env, m, node, deadline);
      r.out.Err? ==> r.out.error.ShutdownTimeoutError? || r.out.error.LifecycleError? || LookError(r.out.error)
  {
    hide CheckRuntime, StateBy, StopAndCheck, InTime;
    RuntimeShape(env, m, deadline);
    var rt := CheckRuntime(env, m, deadline);
    StateErrors(cfg, env, rt.at, node, deadline);
    StopRunningErrors(cfg, env, StateBy(cfg, env, rt.at, node, deadline).at, node, deadline);
  }

  /** At most one `stop`, and that right after a `ps` that showed the node in another state. */
  predicate StopsOnce(cfg: Config, es: seq<Event>) {
    (forall i, j :: 0 <= i < |es| && 0 <= j < |es| && IsStop(es[i]) && IsStop(es[j]) ==> i == j) &&
    (forall i :: 0 <= i < |es| && IsStop(es[i]) ==> i > 0 && SawRunning(cfg, es[i - 1]))
  }

  predicate EndsStopped(cfg: Config, es: seq<Event>) {
    es != [] && Observed(cfg, es[|es| - 1]) == Some(STOPPED)
  }

  /** Every run of `stop_node`: bad arguments are refused before anything is done; otherwise it keeps its one
      deadline, runs at most one `stop`, and that on a node seen running, and returns a STOPPED status exactly
      when the last thing it did was to see the node STOPPED. The errors are those documented, or what was
      raised unforeseen. */
  lemma StopNodeSafe(cfg: Config, env: Script, m: Moment, nodeId: string, timeout: TimeoutArg)
    ensures var (r, node) := (StopNode(cfg, env, m, nodeId, timeout), ValidNodeId(nodeId));
      (if node.None? then r == Run(Err(LifecycleError), m, [])
       else if !(timeout.Seconds? && timeout.f.Finite? && timeout.f.r > 0.0) then
         r == Run(Err(if timeout.HugeInt? then OtherException else LifecycleError), m, [])
       else InTime(env, m, Read(env, m).now + timeout.f.r, r.at, r.events)) &&
      StopsOnce(cfg, r.events) && (r.out.Ok? <==> EndsStopped(cfg, r.events)) &&
      (r.out == Err(OtherException) <==> (node.Some? && timeout.HugeInt?) || SomethingRaised(r.events)) &&
      (r.out.Ok? ==> r.out.value.nodeId == node.value && r.out.value.state == STOPPED) &&
      (r.out.Ok? ==> r.out.value.health == NodeHealth(STOPPED, None, None, None, None, Some(Str("node_stopped")))) &&
      (r.out.Err? ==> r.out.error.ShutdownTimeoutError? || r.out.error.LifecycleError? || LookError(r.out.error))
  {
    hide InTime, StopBy, ValidNodeId, PsState, SomethingRaised;
    NothingRaised();
    var node := ValidNodeId(nodeId);
    if node.Some? && GoodTimeout(timeout) {
      StopSafe(cfg, env, m, node.value, timeout.f.r);
      var t := Read(env, m);
      StopByErrors(cfg, env, t, node.value, t.now + timeout.f.r);
      StopTransparent(cfg, env, t, node.value, t.now + timeout.f.r);
    }
  }

  /** With instant local work and honoured timeouts `stop_node` is over within its timeout. */
  lemma StopNodeEnds(cfg: Config, env: Script, m: Moment, nodeId: string, timeout: TimeoutArg)
    requires Instant(env) && Honoured(StopNode(cfg, env, m, nodeId, timeout).events)
    ensures StopNode(cfg, env, m, nodeId, timeout).at.now <= m.now + if GoodTimeout(timeout) then timeout.f.r else 0.0
  {
    hide Stop, Honoured, ValidNodeId, Timely;
    assert env(m.step).drift == 0.0;
  }
}
