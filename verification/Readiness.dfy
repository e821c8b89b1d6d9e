/** How the readiness loop and `start_node` end, told by what the delegated probes reported: a report that shows
    health or another network or version ends the polling at once, and nothing else does but time, an error or
    an expired deadline. */
module Readiness {
  import opened Outcome
  import opened Text
  import opened Domain
  import opened Runs
  import opened World
  import opened Health
  import opened Containers
  import opened AdapterSpec
  import opened AdapterSafety
  import opened Validation
  import opened ServiceSpec
  import opened ServiceSafety
  import opened Observations
  import opened Starting
  import opened Unforeseen

  /** A delegated probe of the node that exited with code 0 and whose report shows health. */
  predicate ShowedHealthy(cfg: Config, node: string, e: Event) {
    Succeeded(e) && e.cmd == RunStatus(node) && ShowsHealthy(cfg.lib, e.reply.out)
  }

  /** One whose report shows another network or version. */
  predicate ShowedIncompatible(cfg: Config, node: string, e: Event) {
    Succeeded(e) && e.cmd == RunStatus(node) && ShowsIncompatible(cfg.lib, e.reply.out)
  }

  predicate Decisive(cfg: Config, node: string, e: Event) {
    ShowedHealthy(cfg, node, e) || ShowedIncompatible(cfg, node, e)
  }

  predicate EndsIncompatible(cfg: Config, node: string, es: seq<Event>) {
    es != [] && ShowedIncompatible(cfg, node, es[|es| - 1])
  }

  /** What was reported before the last command decided nothing. */
  predicate UndecidedBefore(cfg: Config, node: string, es: seq<Event>) {
    forall i :: 0 <= i < |es| - 1 ==> !Decisive(cfg, node, es[i])
  }

  /** A polling: it ends in HEALTHY or `NodeIncompatibleError` exactly when the last report says so. */
  predicate Decided(cfg: Config, node: string, healthy: bool, out: Result<()>, es: seq<Event>) {
    (healthy <==> EndsHealthy(cfg, node, es)) &&
    (out == Err(NodeIncompatibleError) <==> EndsIncompatible(cfg, node, es)) &&
    UndecidedBefore(cfg, node, es)
  }

  /** The way it ended, without the value. */
  function Ending<T>(out: Result<T>): Result<()> { if out.Ok? then Ok(()) else Err(out.error) }

  lemma ProbeDecides(cfg: Config, env: Script, m: Moment, node: string, budget: real)
    requires budget > 0.0
    ensures var r := ProbeHealth(cfg, env, m, node, budget);
      Decided(cfg, node, r.out.Ok? && r.out.value.state == HEALTHY,
              if r.out.Ok? && r.out.value.state == INCOMPATIBLE then Err(NodeIncompatibleError) else Ok(()), r.events)
  {
    hide ProbeHealth, ShowsHealthy, ShowsIncompatible, PsState, ProbeTold;
    ProbeHealthTold(cfg, env, m, node, budget);
    var es := ProbeHealth(cfg, env, m, node, budget).events;
    ProbeHealthyRead(cfg, node, es);
    assert forall i :: 0 <= i < |es| && i < 3 ==> es[i] == es[..if |es| == 4 then 3 else |es|][i];
  }

  lemma DecidedAfter(cfg: Config, node: string, e: Event, healthy: bool, out: Result<()>, es: seq<Event>)
    requires !e.Ran? && Decided(cfg, node, healthy, out, es)
    ensures Decided(cfg, node, healthy, out, [e] + es)
  {
    hide ShowsHealthy, ShowsIncompatible;
    assert forall i :: 0 <= i < |es| ==> ([e] + es)[i + 1] == es[i];
  }

  /** A report that decides nothing, and then something that is no command. */
  lemma StillUndecided(cfg: Config, node: string, es: seq<Event>, e: Event)
    requires Decided(cfg, node, false, Ok(()), es) && !e.Ran?
    ensures Decided(cfg, node, false, Ok(()), es + [e])
    ensures forall x :: x in es + [e] ==> !Decisive(cfg, node, x)
  {
    hide ShowsHealthy, ShowsIncompatible;
  }

  /** One round of the polling. */
  lemma RoundDecides(cfg: Config, env: Script, m: Moment, node: string, deadline: real)
    ensures var one := PollOnce(cfg, env, m, node, deadline);
      Decided(cfg, node, one.out.Ok? && one.out.value.Some?, Ending(one.out), one.events) &&
      (one.out == Ok(None) ==> forall e :: e in one.events ==> !Decisive(cfg, node, e))
  {
    hide ProbeHealth, Decided, Decisive, InTime, Rounds;
    var t := Read(env, m);
    if deadline - t.now > 0.0 {
      var budget := Least(2.0, deadline - t.now);
      ProbeDecides(cfg, env, t, node, budget);
      ProbeErrors(cfg, env, t, node, budget);
      var probe := ProbeHealth(cfg, env, t, node, budget);
      var note := Probing(t.now, budget);
      var refused := probe.out.Ok? && probe.out.value.state == INCOMPATIBLE;
      var verdict := if refused then Err(NodeIncompatibleError) else Ok(());
      DecidedAfter(cfg, node, note, probe.out.Ok? && probe.out.value.state == HEALTHY, verdict, probe.events);
      OtherErrors(cfg, node, false, probe.out, [note] + probe.events);
      if probe.out.Ok? && probe.out.value.state !in {HEALTHY, INCOMPATIBLE} {
        var u := Read(env, probe.at);
        var nap := Least(0.5, deadline - u.now);
        StillUndecided(cfg, node, [note] + probe.events, Slept(nap, u.now, Awake(env, u, nap).now));
        OtherError(cfg, node, StartupTimeoutError, [note] + probe.events);
      }
    } else {
      NothingDecided(cfg, node);
    }
  }

  lemma OtherErrors<T>(cfg: Config, node: string, healthy: bool, out: Result<T>, es: seq<Event>)
    requires out.Err? ==> out.error != NodeIncompatibleError && Decided(cfg, node, healthy, Ok(()), es)
    ensures out.Err? ==> Decided(cfg, node, healthy, Err(out.error), es)
  {
  }

  lemma OtherError(cfg: Config, node: string, error: Failure, es: seq<Event>)
    requires error != NodeIncompatibleError && Decided(cfg, node, false, Ok(()), es)
    ensures Decided(cfg, node, false, Err(error), es)
  {
  }

  lemma NothingDecided(cfg: Config, node: string)
    ensures Decided(cfg, node, false, Err(StartupTimeoutError), [])
  {
  }

  lemma DecidedLater(cfg: Config, node: string, a: seq<Event>, healthy: bool, out: Result<()>, b: seq<Event>)
    requires forall e :: e in a ==> !Decisive(cfg, node, e)
    requires Decided(cfg, node, healthy, out, b)
    ensures Decided(cfg, node, healthy, out, a + b)
  {
    hide ShowsHealthy, ShowsIncompatible, Succeeded;
    var es := a + b;
    if b == [] {
      assert es == a;
      assert es != [] ==> es[|es| - 1] in a;
    } else {
      assert es[|es| - 1] == b[|b| - 1];
    }
    assert forall i :: 0 <= i < |es| ==> es[i] == if i < |a| then a[i] else b[i - |a|];
  }

  /** The polling returns exactly when its last report shows health, and raises `NodeIncompatibleError` exactly
      when its last report shows another network or version; no earlier report showed either. */
  lemma {:induction false} PollDecides(cfg: Config, env: Script, m: Moment, node: string, deadline: real)
    ensures var r := Poll(cfg, env, m, node, deadline);
      Decided(cfg, node, r.out.Ok?, Ending(r.out), r.events)
    decreases Rounds(deadline - m.now)
  {
    hide PollOnce, Decided, Decisive, Rounds;
    RoundDecides(cfg, env, m, node, deadline);
    var one := PollOnce(cfg, env, m, node, deadline);
    if one.out == Ok(None) {
      PollDecides(cfg, env, one.at, node, deadline);
      var rest := Poll(cfg, env, one.at, node, deadline);
      DecidedLater(cfg, node, one.events, rest.out.Ok?, Ending(rest.out), rest.events);
    }
  }

  /** So a polling that ran out of time never had such a report. */
  lemma TimeoutMeansUndecided(cfg: Config, env: Script, m: Moment, node: string, deadline: real)
    requires Poll(cfg, env, m, node, deadline).out == Err(StartupTimeoutError)
    ensures forall e :: e in Poll(cfg, env, m, node, deadline).events ==> !Decisive(cfg, node, e)
  {
    hide Poll, ShowsHealthy, ShowsIncompatible, Rounds;
    PollDecides(cfg, env, m, node, deadline);
    var es := Poll(cfg, env, m, node, deadline).events;
    forall e | e in es ensures !Decisive(cfg, node, e) {
      var i :| 0 <= i < |es| && es[i] == e;
    }
  }

  /** A returned status shows what the last report says. */
  predicate ReturnsReport(cfg: Config, node: string, s: NodeStatus, es: seq<Event>) {
    EndsHealthy(cfg, node, es) && s == NodeStatus(node, HEALTHY, HostHealth(cfg.lib, es[|es| - 1].reply.out))
  }

  lemma ReturnsLater(cfg: Config, node: string, s: NodeStatus, a: seq<Event>, b: seq<Event>)
    requires ReturnsReport(cfg, node, s, b)
    ensures ReturnsReport(cfg, node, s, a + b)
  {
    hide ShowsHealthy, HostHealth;
    assert (a + b)[|a + b| - 1] == b[|b| - 1];
  }

  lemma ProbeReturns(cfg: Config, env: Script, m: Moment, node: string, budget: real)
    requires budget > 0.0
    ensures var r := ProbeHealth(cfg, env, m, node, budget);
      r.out.Ok? && r.out.value.state == HEALTHY ==>
        ReturnsReport(cfg, node, NodeStatus(node, HEALTHY, r.out.value), r.events)
  {
    hide ProbeHealth, ShowsHealthy, PsState, HostHealth, SomethingRaised, ShowedRest, Lower, LookShape;
    ProbeHealthTold(cfg, env, m, node, budget);
    ProbeHealthyRead(cfg, node, ProbeHealth(cfg, env, m, node, budget).events);
  }

  lemma {:induction false} PollReturns(cfg: Config, env: Script, m: Moment, node: string, deadline: real)
    ensures var r := Poll(cfg, env, m, node, deadline);
      r.out.Ok? ==> ReturnsReport(cfg, node, r.out.value, r.events)
    decreases Rounds(deadline - m.now)
  {
    hide ProbeHealth, ReturnsReport, Rounds, InTime;
    var t := Read(env, m);
    if deadline - t.now > 0.0 {
      var budget := Least(2.0, deadline - t.now);
      ProbeReturns(cfg, env, t, node, budget);
      var probe := ProbeHealth(cfg, env, t, node, budget);
      if probe.out.Ok? && probe.out.value.state == HEALTHY {
        ReturnsLater(cfg, node, NodeStatus(node, HEALTHY, probe.out.value), [Probing(t.now, budget)], probe.events);
      }
    }
    var one := PollOnce(cfg, env, m, node, deadline);
    if one.out == Ok(None) {
      PollReturns(cfg, env, one.at, node, deadline);
      var rest := Poll(cfg, env, one.at, node, deadline);
      if rest.out.Ok? {
        ReturnsLater(cfg, node, rest.out.value, one.events, rest.events);
      }
    }
  }

  /** Every run of the polling: the answer is the one that its commands tell. */
  lemma PollTold(cfg: Config, env: Script, m: Moment, node: string, deadline: real)
    ensures var r := Poll(cfg, env, m, node, deadline);
      if EndsHealthy(cfg, node, r.events) then r.out.Ok? && ReturnsReport(cfg, node, r.out.value, r.events)
      else r.out == Err(
        if EndsIncompatible(cfg, node, r.events) then NodeIncompatibleError
        else if SomethingRaised(r.events) then OtherException
        else if LostSight(cfg, LastProbe(r.events)) then RuntimeUnavailableError
        else StartupTimeoutError)
  {
    hide Poll, EndsHealthy, EndsIncompatible, SomethingRaised, LostSight, LastProbe, ReturnsReport, UndecidedBefore;
    PollDecides(cfg, env, m, node, deadline);
    PollReturns(cfg, env, m, node, deadline);
    PollErrors(cfg, env, m, node, deadline);
    PollTransparent(cfg, env, m, node, deadline);
    PollCutShortIff(cfg, env, m, node, deadline);
  }

  // ----- start_node -----

  predicate UpRan(es: seq<Event>) { exists e :: e in es && IsUp(e) }

  /** After `up`, no report decides anything but for the last command. */
  predicate UndecidedAfterUp(cfg: Config, node: string, es: seq<Event>) {
    forall i, j :: 0 <= i < j < |es| - 1 && IsUp(es[i]) ==> !Decisive(cfg, node, es[j])
  }

  /** How `start_node` ends, in terms of what was reported. */
  predicate NodeDecided(cfg: Config, node: string, out: Result<NodeStatus>, es: seq<Event>) {
    (out == Err(NodeIncompatibleError) <==> UpRan(es) && EndsIncompatible(cfg, node, es)) &&
    (out.Ok? <==> EndsHealthy(cfg, node, es) && (UpRan(es) || StatusShowsHealthy(cfg, node, es))) &&
    (out.Ok? ==> ReturnsReport(cfg, node, out.value, es)) &&
    UndecidedAfterUp(cfg, node, es)
  }

  lemma StatusReturns(cfg: Config, env: Script, m: Moment, node: string)
    ensures var r := GetStatus(cfg, env, m, node);
      r.out.Ok? && r.out.value.state == HEALTHY ==> ReturnsReport(cfg, node, r.out.value, r.events)
  {
    hide GetStatus, ShowsHealthy, ShowsRunning, AtRest, PsState, HostHealth, SomethingRaised, Lower, DelegateShape;
    GetStatusTold(cfg, env, m, node);
    StatusHealthyIff(cfg, env, m, node);
  }

  /** The status check alone. */
  lemma StatusDecides(cfg: Config, env: Script, m: Moment, node: string)
    requires var r := GetStatus(cfg, env, m, node); r.out.Err? || r.out.value.state == HEALTHY
    ensures var r := GetStatus(cfg, env, m, node); NodeDecided(cfg, node, r.out, r.events)
  {
    hide GetStatus, ShowsHealthy, ShowsIncompatible, ShowsRunning, HostHealth, ReadOnly;
    StatusSafe(cfg, env, m, node);
    ReadOnlyHasNoUp(cfg, GetStatus(cfg, env, m, node).events);
    StatusHealthyIff(cfg, env, m, node);
    StatusReturns(cfg, env, m, node);
    StatusErrors(cfg, env, m, node);
  }

  /** A status check that showed no health, and a start that failed. */
  lemma FailedStartDecides(cfg: Config, node: string, a: seq<Event>, b: seq<Event>, error: Failure)
    requires NoUp(a) && !StatusShowsHealthy(cfg, node, a) && OnlyStarts(node, b) && error != NodeIncompatibleError
    ensures NodeDecided(cfg, node, Err(error), a + b)
  {
    hide ShowsHealthy, ShowsIncompatible, ShowsRunning;
    var es := a + b;
    if b == [] {
      assert es == a;
    } else {
      assert es[|es| - 1] == b[|b| - 1] && b[|b| - 1] in b;
    }
    assert forall k :: 0 <= k < |a| ==> es[k] == a[k] && !IsUp(a[k]);
    forall i, j | 0 <= i < j < |es| - 1 && IsUp(es[i]) ensures !Decisive(cfg, node, es[j]) {
      assert es[j] in b;
    }
  }

  /** A status check that showed no health, a start that went well, and the polling. */
  lemma PolledDecides(cfg: Config, node: string, a: seq<Event>, b: seq<Event>, c: seq<Event>, out: Result<NodeStatus>)
    requires NoUp(a) && OnlyStarts(node, b) && EndsInUp(b) && NoUp(c)
    requires Decided(cfg, node, out.Ok?, Ending(out), c) && (out.Ok? ==> ReturnsReport(cfg, node, out.value, c))
    ensures NodeDecided(cfg, node, out, a + (b + c))
  {
    hide ShowsHealthy, ShowsIncompatible, ShowsRunning, HostHealth;
    var es := a + (b + c);
    assert es[|a| + |b| - 1] == b[|b| - 1];
    assert UpRan(es) by { assert es[|a| + |b| - 1] in es; }
    if c == [] {
      assert es[|es| - 1] == b[|b| - 1];
    } else {
      assert es[|es| - 1] == c[|c| - 1];
    }
    assert forall k :: 0 <= k < |a| ==> es[k] == a[k] && !IsUp(a[k]);
    forall i, j | 0 <= i < j < |es| - 1 && IsUp(es[i]) ensures !Decisive(cfg, node, es[j]) {
      if j < |a| + |b| {
        assert es[j] in b;
      } else {
        assert es[j] == c[j - |a| - |b|];
      }
    }
  }

  lemma StartEndsInUp(cfg: Config, env: Script, m: Moment, node: string, timeout: real)
    ensures var r := Start(cfg, env, m, node, timeout);
      OnlyStarts(node, r.events) && (r.out.Ok? ==> EndsInUp(r.events)) &&
      (r.out.Err? ==> r.out.error != NodeIncompatibleError)
  {
    hide Start, SomethingRaised, EndsInCollision, Images, LiveDaemon;
    StartToldBy(cfg, env, m, node, timeout);
  }

  /** Every run of `start_node` on good arguments. It ends in `NodeIncompatibleError` exactly when `up` was run and
      the last command is a delegated probe whose report shows another network or version; it returns exactly
      when that report shows health and, unless `up` was run, the first look showed a running node. */
  lemma StartNodeDecides(cfg: Config, env: Script, m: Moment, nodeId: string, timeout: TimeoutArg)
    requires ValidNodeId(nodeId).Some? && GoodTimeout(timeout)
    ensures var r := StartNode(cfg, env, m, nodeId, timeout);
      NodeDecided(cfg, ValidNodeId(nodeId).value, r.out, r.events)
  {
    hide GetStatus, Start, Poll, ValidNodeId, NodeDecided, Decided, OnlyStarts, EndsInUp, NoUp, ReadOnly, ReturnsReport;
    hide StatusShowsHealthy;
    var node := ValidNodeId(nodeId).value;
    var status := GetStatus(cfg, env, m, node);
    StatusHealthyIff(cfg, env, m, node);
    StatusSafe(cfg, env, m, node);
    ReadOnlyHasNoUp(cfg, status.events);
    if status.out.Err? || status.out.value.state == HEALTHY {
      StatusDecides(cfg, env, m, node);
    } else {
      var up := Start(cfg, env, status.at, node, timeout.f.r);
      StartEndsInUp(cfg, env, status.at, node, timeout.f.r);
      if up.out.Err? {
        FailedStartDecides(cfg, node, status.events, up.events, up.out.error);
      } else {
        var t := Read(env, up.at);
        var deadline := t.now + timeout.f.r;
        var poll := Poll(cfg, env, t, node, deadline);
        PollDecides(cfg, env, t, node, deadline);
        PollReturns(cfg, env, t, node, deadline);
        PollHasNoUp(cfg, env, t, node, deadline);
        PolledDecides(cfg, node, status.events, up.events, poll.events, poll.out);
      }
    }
  }

  /** So a `start_node` that ran out of time had no such report after its `up`. */
  lemma NodeTimeoutMeansUndecided(cfg: Config, env: Script, m: Moment, nodeId: string, timeout: TimeoutArg)
    requires ValidNodeId(nodeId).Some? && GoodTimeout(timeout)
    requires StartNode(cfg, env, m, nodeId, timeout).out == Err(StartupTimeoutError)
    ensures var es := StartNode(cfg, env, m, nodeId, timeout).events;
      forall i, j :: 0 <= i < j < |es| && IsUp(es[i]) ==> !Decisive(cfg, ValidNodeId(nodeId).value, es[j])
  {
    hide StartNode, ValidNodeId, ShowsHealthy, ShowsIncompatible, StatusShowsHealthy, ReturnsReport;
    StartNodeDecides(cfg, env, m, nodeId, timeout);
    var es := StartNode(cfg, env, m, nodeId, timeout).events;
    forall i, j | 0 <= i < j < |es| && IsUp(es[i]) ensures !Decisive(cfg, ValidNodeId(nodeId).value, es[j]) {
      assert es[i] in es;
    }
  }
}
