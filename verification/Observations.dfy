/** What `get_lifecycle_state`, `probe_health`, `get_status` and `stop` answer, as functions of nothing but
    what their commands showed. */
module Observations {
  import opened Outcome
  import opened Text
  import opened Json
  import opened Domain
  import opened Process
  import opened Runs
  import opened World
  import opened Health
  import opened Containers
  import opened AdapterSpec
  import opened AdapterSafety
  import opened Unforeseen
  import Delegation

  /** The command showed a node whose container is running. */
  predicate ShowedRunning(cfg: Config, e: Event) {
    Succeeded(e) && e.cmd.ComposePs? && ShowsRunning(cfg.lib.loads, e.reply.out)
  }

  /** The command showed a node at rest. */
  predicate ShowedRest(cfg: Config, e: Event) {
    Succeeded(e) && e.cmd.ComposePs? && AtRest(cfg.lib.loads, e.reply.out)
  }

  lemma ObservedShows(cfg: Config, e: Event)
    ensures Observed(cfg, e) == Some(STOPPED) <==> ShowedRest(cfg, e)
    ensures Observed(cfg, e) in {Some(STARTING), Some(UNHEALTHY)} <==> ShowedRunning(cfg, e)
  {
    hide PsState, AtRest, ShowsRunning;
    if Succeeded(e) && e.cmd.ComposePs? {
      StoppedIffAtRest(cfg.lib.loads, e.reply.out);
    }
  }

  // ----- get_lifecycle_state -----

  /** A state is returned exactly when both commands went well, and it is the one the second printed. */
  predicate StateTold(cfg: Config, es: seq<Event>, out: Result<LifecycleState>) {
    if SomethingRaised(es) then out == Err(OtherException)
    else if |es| == 2 && Succeeded(es[1])
    then out.Ok? && OutputReads(cfg.lib.loads, es[1].reply.out, out.value)
    else out == Err(RuntimeUnavailableError)
  }

  lemma StateByTold(cfg: Config, env: Script, m: Moment, node: string, deadline: real)
    ensures var r := StateBy(cfg, env, m, node, deadline); StateTold(cfg, r.events, r.out)
  {
    hide StateBy, PsState, SomethingRaised, OutputReads;
    StateHasShape(cfg, env, m, node, deadline);
    var r := StateBy(cfg, env, m, node, deadline);
    StateRaises(cfg, node, r);
    if r.out.Ok? {
      PsStateRead(cfg.lib.loads, r.events[1].reply.out);
    }
  }

  /** Every run of `get_lifecycle_state`. */
  lemma GetStateTold(cfg: Config, env: Script, m: Moment, node: string)
    ensures var r := GetState(cfg, env, m, node);
      StateShape(cfg, node, r) && StateTold(cfg, r.events, r.out)
  {
    hide StateBy, StateTold, StateShape;
    var t := Read(env, m);
    StateHasShape(cfg, env, t, node, t.now + 10.0);
    StateByTold(cfg, env, t, node, t.now + 10.0);
  }

  // ----- probe_health -----

  /** What a delegated `status` tells by the way it ended. */
  function ReplyTold(lib: Library, reply: Reply): Result<NodeHealth> {
    match reply
    case Raised => Err(OtherException)
    case TimedOut => Ok(Bare(UNKNOWN, "probe_failed"))
    case OsFailure => Ok(Bare(UNKNOWN, "probe_failed"))
    case Exited(code, out, err) =>
      if code == 0 then Ok(HostHealth(lib, out))
      else if exists i, j :: 0 <= i <= j <= |err| && Lower(err)[i..j] in ["no such service", "not found"]
      then Ok(Bare(UNHEALTHY, "bitheim_service_unavailable"))
      else Ok(Bare(UNHEALTHY, "delegated_probe_failed"))
  }

  /** What a probe tells by its commands: daemon, daemon, `ps` and the delegated `status`. */
  function ProbeTold(cfg: Config, es: seq<Event>): Result<NodeHealth> {
    if SomethingRaised(es) then Err(OtherException)
    else if es == [] || (|es| == 1 && !Succeeded(es[0])) then Ok(Bare(UNKNOWN, "runtime_unavailable"))
    else if |es| < 3 || !Succeeded(es[2]) then Err(RuntimeUnavailableError)
    else if ShowedRest(cfg, es[2]) then Ok(Bare(STOPPED, "node_stopped"))
    else if |es| == 3 then Ok(Bare(UNKNOWN, "timeout_expired"))
    else if es[3].Ran? then ReplyTold(cfg.lib, es[3].reply)
    else Err(OtherException)
  }

  lemma ReplySays(err: string)
    ensures HasPart(Lower(err), "no such service") || HasPart(Lower(err), "not found") <==>
      exists i, j :: 0 <= i <= j <= |err| && Lower(err)[i..j] in ["no such service", "not found"]
  {
    hide HasPart, Lower;
    var s := Lower(err);
    HasPartIff(s, "no such service");
    HasPartIff(s, "not found");
    assert forall t :: t in ["no such service", "not found"] <==> t == "no such service" || t == "not found";
    if i, j :| 0 <= i <= j <= |err| && s[i..j] in ["no such service", "not found"] {
      assert s[i..j] == "no such service" || s[i..j] == "not found";
    }
  }

  lemma DelegatedTold(cfg: Config, env: Script, m: Moment, node: string, deadline: real)
    ensures var r := DelegatedProbe(cfg, env, m, node, deadline);
      |r.events| <= 1 && (r.events != [] ==> r.events[0].Ran? && r.events[0].cmd == RunStatus(node)) &&
      r.out == if r.events == [] then Ok(Bare(UNKNOWN, "timeout_expired")) else ReplyTold(cfg.lib, r.events[0].reply)
  {
    hide HasPart, Lower, HostHealth, InTime;
    var run := Issue(env, m, deadline, RunStatus(node), StartupTimeoutError);
    if run.out.Ok? && run.out.value.Exited? {
      ReplySays(run.out.value.err);
    }
  }

  lemma ReplyRaised(lib: Library, e: Event)
    requires e.Ran?
    ensures SomethingRaised([e]) <==> e.reply.Raised?
    ensures ReplyTold(lib, e.reply) == Err(OtherException) <==> e.reply.Raised?
  {
    hide HostHealth, Lower;
    assert e in [e];
  }

  /** The look that found a node to ask, and then the delegated command. */
  lemma AskedTold(cfg: Config, node: string, seen: seq<Event>, probe: Run<NodeHealth, Event>)
    requires LookShape(cfg, node, seen) && |seen| == 3 && SawRunning(cfg, seen[2]) && !SomethingRaised(seen)
    requires |probe.events| <= 1 && (probe.events != [] ==> probe.events[0].Ran?)
    requires probe.out == if probe.events == [] then Ok(Bare(UNKNOWN, "timeout_expired"))
                          else ReplyTold(cfg.lib, probe.events[0].reply)
    ensures probe.out == ProbeTold(cfg, seen + probe.events)
  {
    hide PsState, SomethingRaised, ReplyTold, AtRest, ShowsRunning;
    var es := seen + probe.events;
    ObservedShows(cfg, seen[2]);
    RaisedJoined(seen, probe.events);
    assert es[2] == seen[2] && es[0] == seen[0];
    if probe.events == [] {
      NothingRaised();
    } else {
      assert probe.events == [probe.events[0]] && es[3] == probe.events[0];
      ReplyRaised(cfg.lib, probe.events[0]);
    }
  }

  lemma ProbeByTold(cfg: Config, env: Script, t: Moment, node: string, deadline: real)
    ensures var r := ProbeBy(cfg, env, t, node, deadline);
      DelegateShape(cfg, node, RunStatus(node), r.events) && r.out == ProbeTold(cfg, r.events)
  {
    hide CheckRuntime, StateBy, DelegatedProbe, PsState, AtRest, ShowsRunning;
    hide SomethingRaised, ReplyTold, DelegateShape;
    ProbeByShape(cfg, env, t, node, deadline);
    var rt := CheckRuntime(env, t, deadline);
    RuntimeShape(env, t, deadline);
    RuntimeRaises(env, t, deadline);
    LookHasShape(cfg, env, t, node, deadline);
    if rt.out.Ok? {
      var pre := StateBy(cfg, env, rt.at, node, deadline);
      StateHasShape(cfg, env, rt.at, node, deadline);
      StateRaises(cfg, node, pre);
      var seen := rt.events + pre.events;
      RaisedJoined(rt.events, pre.events);
      if pre.out.Ok? {
        ObservedShows(cfg, seen[2]);
        if !pre.out.value.STOPPED? {
          DelegatedTold(cfg, env, pre.at, node, deadline);
          AskedTold(cfg, node, seen, DelegatedProbe(cfg, env, pre.at, node, deadline));
        }
      }
    }
  }

  /** Every run of `probe_health`: the answer is the one that its commands tell, and a budget that is not positive
      is answered at once. */
  lemma ProbeHealthTold(cfg: Config, env: Script, m: Moment, node: string, timeout: real)
    ensures var r := ProbeHealth(cfg, env, m, node, timeout);
      if timeout <= 0.0 then r == Run(Ok(Bare(UNKNOWN, "timeout_expired")), m, [])
      else DelegateShape(cfg, node, RunStatus(node), r.events) && r.out == ProbeTold(cfg, r.events)
  {
    hide ProbeBy, DelegateShape, ProbeTold;
    if timeout > 0.0 {
      var t := Read(env, m);
      ProbeByTold(cfg, env, t, node, t.now + timeout);
    }
  }

  // ----- get_status -----

  /** What a status tells: the state of the first look only decides between STOPPED, UNKNOWN and whatever the
      probe after it found. */
  function StatusTold(cfg: Config, node: string, es: seq<Event>): Result<NodeStatus> {
    if |es| < 2 || !Succeeded(es[1]) then Err(if SomethingRaised(es) then OtherException else RuntimeUnavailableError)
    else if ShowedRest(cfg, es[1]) then Ok(NodeStatus(node, STOPPED, Bare(STOPPED, "node_stopped")))
    else
      var probe := ProbeTold(cfg, es[2..]);
      if probe.Err? then Err(probe.error)
      else Ok(NodeStatus(node, if ShowedRunning(cfg, es[1]) then probe.value.state else UNKNOWN, probe.value))
  }

  /** The commands of a status: a state check, and after one that found the node not at rest, a probe. */
  predicate StatusShape(cfg: Config, node: string, es: seq<Event>) {
    |es| <= 6 && (forall e :: e in es ==> e.Ran?) && (|es| >= 1 ==> es[0].cmd == DockerInfo) &&
    (|es| >= 2 ==> es[1].cmd == ComposePs(node)) &&
    (|es| > 2 ==> LiveDaemon(es[0]) && SawRunning(cfg, es[1]) && DelegateShape(cfg, node, RunStatus(node), es[2..]))
  }

  lemma StateAlone(cfg: Config, node: string, st: Run<LifecycleState, Event>)
    requires StateShape(cfg, node, st)
    ensures StatusShape(cfg, node, st.events) && |st.events| <= 2
    ensures st.out.Ok? <==> |st.events| == 2 && Succeeded(st.events[1])
    ensures st.out.Err? ==>
      st.out.error == (if SomethingRaised(st.events) then OtherException else RuntimeUnavailableError)
    ensures st.out.Ok? ==>
      (st.out.value == STOPPED <==> ShowedRest(cfg, st.events[1])) &&
      (st.out.value in {STARTING, UNHEALTHY} <==> ShowedRunning(cfg, st.events[1])) &&
      st.out.value !in {HEALTHY, INCOMPATIBLE}
  {
    hide PsState, AtRest, ShowsRunning, SomethingRaised;
    StateRaises(cfg, node, st);
    if st.out.Ok? {
      ObservedShows(cfg, st.events[1]);
    }
  }

  lemma ProbedJoined(cfg: Config, node: string, st: Run<LifecycleState, Event>, probe: seq<Event>)
    requires StateShape(cfg, node, st) && st.out.Ok? && st.out.value != STOPPED
    requires DelegateShape(cfg, node, RunStatus(node), probe)
    ensures var es := st.events + probe;
      StatusShape(cfg, node, es) && es[1] == st.events[1] && es[2..] == probe
  {
    hide PsState;
    var es := st.events + probe;
    assert es[0] == st.events[0] && es[1] == st.events[1] && es[2..] == probe;
    assert forall e :: e in probe ==> e.Ran? by {
      forall i | 0 <= i < |probe| ensures probe[i].Ran? {
        assert i < 3 ==> probe[i] == probe[..if |probe| == 4 then 3 else |probe|][i];
      }
    }
  }

  /** In words only: the report of the last command proves health, and the first `ps` showed a running node. */
  predicate StatusShowsHealthy(cfg: Config, node: string, es: seq<Event>) {
    |es| == 6 && es[1].Ran? && es[1].cmd == ComposePs(node) && ShowedRunning(cfg, es[1]) &&
    Succeeded(es[5]) && es[5].cmd == RunStatus(node) && ShowsHealthy(cfg.lib, es[5].reply.out)
  }

  /** Every run of `get_status`: the answer is the one its commands tell. */
  lemma GetStatusTold(cfg: Config, env: Script, m: Moment, node: string)
    ensures var r := GetStatus(cfg, env, m, node);
      StatusShape(cfg, node, r.events) && r.out == StatusTold(cfg, node, r.events)
  {
    hide StateBy, ProbeHealth, StateShape, StatusShape, DelegateShape, ShowedRest, ShowedRunning;
    hide SomethingRaised, ProbeTold;
    var t := Read(env, m);
    StateHasShape(cfg, env, t, node, t.now + 10.0);
    var st := GetState(cfg, env, m, node);
    StateAlone(cfg, node, st);
    if st.out.Ok? && st.out.value != STOPPED {
      ProbeHealthTold(cfg, env, st.at, node, 5.0);
      ProbedJoined(cfg, node, st, ProbeHealth(cfg, env, st.at, node, 5.0).events);
    }
  }

  /** `get_status` answers HEALTHY exactly when its first look showed a running node and its last command is a
      delegated probe whose report shows health. */
  lemma StatusHealthyIff(cfg: Config, env: Script, m: Moment, node: string)
    ensures var r := GetStatus(cfg, env, m, node);
      r.out.Ok? && r.out.value.state == HEALTHY <==> StatusShowsHealthy(cfg, node, r.events)
  {
    hide GetStatus, ShowsRunning, ShowsHealthy;
    GetStatusTold(cfg, env, m, node);
    StatusHealthyRead(cfg, node, GetStatus(cfg, env, m, node).events);
  }

  lemma StatusHealthyRead(cfg: Config, node: string, es: seq<Event>)
    requires StatusShape(cfg, node, es)
    ensures var told := StatusTold(cfg, node, es);
      told.Ok? && told.value.state == HEALTHY <==> StatusShowsHealthy(cfg, node, es)
  {
    hide PsState, ShowsRunning, ShowsHealthy, AtRest, HostHealth, SomethingRaised;
    if |es| >= 2 && Succeeded(es[1]) {
      ObservedShows(cfg, es[1]);
      ProbeHealthyRead(cfg, node, es[2..]);
    }
  }

  lemma ProbeHealthyRead(cfg: Config, node: string, es: seq<Event>)
    requires DelegateShape(cfg, node, RunStatus(node), es)
    ensures var told := ProbeTold(cfg, es);
      told.Ok? && told.value.state == HEALTHY <==> ReportsHealth(cfg, es)
    ensures var told := ProbeTold(cfg, es);
      told.Ok? && told.value.state == INCOMPATIBLE <==>
        |es| == 4 && Succeeded(es[3]) && ShowsIncompatible(cfg.lib, es[3].reply.out)
  {
    hide PsState, ShowsRunning, ShowsHealthy, ShowsIncompatible, AtRest, HostHealth, Lower, SomethingRaised;
    if |es| == 4 {
      assert es == es[..3] + [es[3]];
      RaisedJoined(es[..3], [es[3]]);
      ReplyRaised(cfg.lib, es[3]);
      LookWell(cfg, node, es[..3]);
      ObservedShows(cfg, es[2]);
      if Succeeded(es[3]) {
        HealthySound(cfg.lib, es[3].reply.out);
      }
    }
  }

  lemma LookWell(cfg: Config, node: string, look: seq<Event>)
    requires LookShape(cfg, node, look) && |look| == 3 && Succeeded(look[2])
    ensures !SomethingRaised(look)
  {
    assert Succeeded(look[0]) && Succeeded(look[1]);
  }

  // ----- stop -----

  /** How a `stop` command that did not go well is answered. */
  function HaltTold(reply: Reply): Result<()> {
    match reply
    case Raised => Err(OtherException)
    case TimedOut => Err(ShutdownTimeoutError)
    case OsFailure => Err(RuntimeUnavailableError)
    case Exited(_, _, _) => Err(LifecycleError)
  }

  /** What a stop tells by its commands: daemon, daemon, `ps`, `stop`, daemon, `ps`. */
  function StopTold(cfg: Config, es: seq<Event>): Result<()> {
    var n := |es|;
    if SomethingRaised(es) then Err(OtherException)
    else if (n == 3 && ShowedRest(cfg, es[2])) || (n == 6 && ShowedRest(cfg, es[5])) then Ok(())
    else if (n == 3 && Succeeded(es[2])) || (n == 6 && Succeeded(es[5])) then Err(ShutdownTimeoutError)
    else if n == 4 && es[3].Ran? && !Succeeded(es[3]) then HaltTold(es[3].reply)
    else Err(RuntimeUnavailableError)
  }

  /** The same of the last three commands. */
  function TailTold(cfg: Config, es: seq<Event>): Result<()> {
    var n := |es|;
    if SomethingRaised(es) then Err(OtherException)
    else if n == 3 && ShowedRest(cfg, es[2]) then Ok(())
    else if n == 0 || (n == 3 && Succeeded(es[2])) then Err(ShutdownTimeoutError)
    else if n == 1 && es[0].Ran? && !Succeeded(es[0]) then HaltTold(es[0].reply)
    else Err(RuntimeUnavailableError)
  }

  lemma StopAndCheckTold(cfg: Config, env: Script, m: Moment, node: string, deadline: real)
    ensures var r := StopAndCheck(cfg, env, m, node, deadline); r.out == TailTold(cfg, r.events)
  {
    hide StateBy, PsState, Grace, InTime, ShowedRest, SomethingRaised;
    NothingRaised();
    var t := Read(env, m);
    var cmd := ComposeStop(node, Grace(deadline - t.now));
    IssueRaises(env, t, deadline, cmd, ShutdownTimeoutError);
    var halt := Issue(env, t, deadline, cmd, ShutdownTimeoutError);
    if deadline - t.now > 0.0 && halt.out.Ok? && StopOutcome(halt.out.value).Ok? {
      StateHasShape(cfg, env, halt.at, node, deadline);
      var post := StateBy(cfg, env, halt.at, node, deadline);
      TailToldJoined(cfg, node, halt.events, post, StopAndCheck(cfg, env, m, node, deadline));
    }
  }

  lemma TailToldJoined(cfg: Config, node: string, halt: seq<Event>, post: Run<LifecycleState, Event>, r: Run<(), Event>)
    requires |halt| == 1 && Succeeded(halt[0]) && StateShape(cfg, node, post)
    requires r.events == halt + post.events
    requires r.out == if post.out.Err? then Err(post.out.error)
                      else if post.out.value.STOPPED? then Ok(()) else Err(ShutdownTimeoutError)
    ensures r.out == TailTold(cfg, r.events)
  {
    hide PsState, AtRest, SomethingRaised, ShowedRunning;
    var es := r.events;
    StateAlone(cfg, node, post);
    RaisedJoined(halt, post.events);
    WellAlone(halt[0]);
    assert halt == [halt[0]];
    StateRaises(cfg, node, post);
    assert es[0] == halt[0];
    assert |es| > 1 ==> es[1] == post.events[0];
    assert |es| > 2 ==> es[2] == post.events[1];
  }

  lemma WellAlone(e: Event)
    requires Succeeded(e)
    ensures !SomethingRaised([e])
  {
  }

  lemma RestThenTold(cfg: Config, node: string, seen: seq<Event>, rest: Run<(), Event>)
    requires LookShape(cfg, node, seen) && |seen| == 3 && SawRunning(cfg, seen[2]) && StopTailShape(cfg, node, rest)
    requires rest.out == TailTold(cfg, rest.events)
    ensures rest.out == StopTold(cfg, seen + rest.events)
  {
    hide PsState, ShowedRest, SomethingRaised, ShowedRunning, HaltTold;
    var es := seen + rest.events;
    RaisedJoined(seen, rest.events);
    ObservedShows(cfg, seen[2]);
    LookWell(cfg, node, seen);
    NothingRaised();
    assert es[2] == seen[2];
    assert |es| > 3 ==> es[3] == rest.events[0];
    assert |es| > 4 ==> es[4] == rest.events[1];
    assert |es| > 5 ==> es[5] == rest.events[2];
  }

  lemma StopByTold(cfg: Config, env: Script, t: Moment, node: string, deadline: real)
    ensures var r := StopBy(cfg, env, t, node, deadline); r.out == StopTold(cfg, r.events)
  {
    hide CheckRuntime, StateBy, StopAndCheck, PsState, SomethingRaised, AtRest, TailTold;
    var rt := CheckRuntime(env, t, deadline);
    RuntimeShape(env, t, deadline);
    RuntimeRaises(env, t, deadline);
    LookHasShape(cfg, env, t, node, deadline);
    if rt.out.Ok? {
      var pre := StateBy(cfg, env, rt.at, node, deadline);
      StateHasShape(cfg, env, rt.at, node, deadline);
      StateRaises(cfg, node, pre);
      var seen := rt.events + pre.events;
      RaisedJoined(rt.events, pre.events);
      if pre.out.Ok? {
        ObservedShows(cfg, seen[2]);
        if !pre.out.value.STOPPED? {
          StopAndCheckShape(cfg, env, pre.at, node, deadline);
          StopAndCheckTold(cfg, env, pre.at, node, deadline);
          RestThenTold(cfg, node, seen, StopAndCheck(cfg, env, pre.at, node, deadline));
        }
      }
    }
  }

  /** Every run of `stop`: the answer is the one its commands tell. */
  lemma StopToldBy(cfg: Config, env: Script, m: Moment, node: string, timeout: real)
    ensures var r := Stop(cfg, env, m, node, timeout);
      StopShape(cfg, node, r) && r.out == StopTold(cfg, r.events)
  {
    hide StopBy, StopShape, StopTold;
    var t := Read(env, m);
    StopHasShape(cfg, env, m, node, timeout);
    StopByTold(cfg, env, t, node, t.now + timeout);
  }

  // ----- The grace of the `stop` command -----

  /** The whole seconds left at some moment between the end of the `ps` and the start of the `stop`, at least one. */
  predicate GraceFits(ps: Event, halt: Event) {
    ps.Ran? && halt.Ran? && halt.cmd.ComposeStop? &&
    var (grace, after) := (halt.cmd.grace, ps.budget - (ps.ended - ps.began));
    1 <= grace && (grace == 1 || grace as real <= after) && halt.budget < (grace + 1) as real
  }

  /** Without delays in between, it is exact. */
  predicate GraceExact(halt: Event) {
    halt.Ran? && halt.cmd.ComposeStop? &&
    halt.cmd.grace == if halt.budget < 1.0 then 1 else halt.budget.Floor
  }

  lemma TailGrace(cfg: Config, env: Script, m: Moment, node: string, deadline: real)
    ensures var r := StopAndCheck(cfg, env, m, node, deadline);
      r.events != [] ==>
        var e := r.events[0];
        e.Ran? && e.cmd.ComposeStop? && 1 <= e.cmd.grace && e.budget < (e.cmd.grace + 1) as real &&
        (e.cmd.grace == 1 || e.cmd.grace as real <= deadline - m.now) && (Instant(env) ==> GraceExact(e))
  {
    hide StateBy, PsState, InTime;
    var t := Read(env, m);
    var halt := Issue(env, t, deadline, ComposeStop(node, Grace(deadline - t.now)), ShutdownTimeoutError);
    var r := StopAndCheck(cfg, env, m, node, deadline);
    if r.events != [] {
      assert r.events[0] == halt.events[0];
    }
  }

  lemma GraceAfter(env: Script, t: Moment, deadline: real, ps: Event, at: Moment, halt: Event)
    requires ps.Ran? && ps.budget == deadline - ps.began && ps.ended <= at.now
    requires halt.Ran? && halt.cmd.ComposeStop? && 1 <= halt.cmd.grace && halt.budget < (halt.cmd.grace + 1) as real
    requires halt.cmd.grace == 1 || halt.cmd.grace as real <= deadline - at.now
    ensures GraceFits(ps, halt)
  {
  }

  /** The node is given all of the time that is left, in whole seconds and at least one, to come to rest. */
  lemma StopGrace(cfg: Config, env: Script, m: Moment, node: string, timeout: real)
    ensures var es := Stop(cfg, env, m, node, timeout).events;
      |es| > 3 ==> GraceFits(es[2], es[3]) && (Instant(env) ==> GraceExact(es[3]))
  {
    hide CheckRuntime, StateBy, StopAndCheck, PsState, GraceFits, GraceExact;
    var t := Read(env, m);
    var deadline := t.now + timeout;
    var rt := CheckRuntime(env, t, deadline);
    RuntimeShape(env, t, deadline);
    LookHasShape(cfg, env, t, node, deadline);
    if rt.out.Ok? {
      var pre := StateBy(cfg, env, rt.at, node, deadline);
      var seen := rt.events + pre.events;
      if pre.out.Ok? && !pre.out.value.STOPPED? {
        var rest := StopAndCheck(cfg, env, pre.at, node, deadline);
        TailGrace(cfg, env, pre.at, node, deadline);
        if rest.events != [] {
          assert (seen + rest.events)[2] == seen[2] == pre.events[1] && (seen + rest.events)[3] == rest.events[0];
          assert pre.events[1] in pre.events;
          GraceAfter(env, t, deadline, seen[2], pre.at, rest.events[0]);
        }
      }
    }
  }

  // ----- inspect_* -----

  /** What an inspection tells up to its payload, by its commands: daemon, daemon, `ps` and the delegated one. */
  function PayloadTold(cfg: Config, es: seq<Event>): Result<Fields> {
    if SomethingRaised(es) then Err(OtherException)
    else if es == [] || (|es| == 1 && !Succeeded(es[0])) then Err(RpcUnavailableError)
    else if |es| < 3 || !Succeeded(es[2]) then Err(RuntimeUnavailableError)
    else if ShowedRest(cfg, es[2]) then Err(RpcUnavailableError)
    else if |es| == 3 then Err(RpcTimeoutError)
    else if es[3].Ran? then Delegation.Payload(cfg.lib.loads, es[3].reply)
    else Err(OtherException)
  }

  lemma DelegatedPayloadTold(cfg: Config, env: Script, m: Moment, node: string, deadline: real, kind: string,
                             args: seq<string>)
    ensures var r := DelegatedInspection(cfg, env, m, node, deadline, kind, args);
      |r.events| <= 1 && (r.events != [] ==> r.events[0].Ran?) &&
      r.out == if r.events == [] then Err(RpcTimeoutError) else Delegation.Payload(cfg.lib.loads, r.events[0].reply)
  {
    hide Delegation.Payload, InTime;
  }

  /** The look that found a node to ask, and then the delegated command. */
  lemma InspectedTold(cfg: Config, node: string, seen: seq<Event>, run: Run<Fields, Event>)
    requires LookShape(cfg, node, seen) && |seen| == 3 && SawRunning(cfg, seen[2])
    requires |run.events| <= 1 && (run.events != [] ==> run.events[0].Ran?)
    requires run.out == if run.events == [] then Err(RpcTimeoutError)
                        else Delegation.Payload(cfg.lib.loads, run.events[0].reply)
    ensures run.out == PayloadTold(cfg, seen + run.events)
  {
    hide PsState, SomethingRaised, AtRest, ShowsRunning, Delegation.Payload;
    var es := seen + run.events;
    ObservedShows(cfg, seen[2]);
    LookWell(cfg, node, seen);
    RaisedJoined(seen, run.events);
    NothingRaised();
    assert es[2] == seen[2] && es[0] == seen[0];
    if run.events != [] {
      assert run.events == [run.events[0]] && es[3] == run.events[0];
      RaisedPayload(cfg, run.events[0]);
    }
  }

  lemma RaisedPayload(cfg: Config, e: Event)
    requires e.Ran?
    ensures SomethingRaised([e]) <==> e.reply.Raised?
    ensures e.reply.Raised? ==> Delegation.Payload(cfg.lib.loads, e.reply) == Err(OtherException)
  {
    assert e in [e];
  }

  lemma LookTold(cfg: Config, env: Script, t: Moment, node: string, deadline: real)
    ensures var r := Look(cfg, env, t, node, deadline);
      r.out.Err? ==> PayloadTold(cfg, r.events) == Err(r.out.error)
  {
    hide CheckRuntime, StateBy, PsState, AtRest, ShowsRunning, SomethingRaised;
    LookOutcome(cfg, env, t, node, deadline);
    var rt := CheckRuntime(env, t, deadline);
    RuntimeShape(env, t, deadline);
    LookHasShape(cfg, env, t, node, deadline);
    if rt.out.Ok? {
      var pre := StateBy(cfg, env, rt.at, node, deadline);
      StateHasShape(cfg, env, rt.at, node, deadline);
      if pre.out.Ok? {
        ObservedShows(cfg, (rt.events + pre.events)[2]);
      }
    }
  }

  /** Every run of an inspection on a good timeout: its payload is the one that its commands tell. */
  lemma InspectTold(cfg: Config, env: Script, m: Moment, node: string, timeout: TimeoutArg, kind: string,
                    args: seq<string>)
    requires GoodDeadline(timeout)
    ensures var r := Inspect(cfg, env, m, node, timeout, kind, args);
      DelegateShape(cfg, node, RunInspect(node, kind, args), r.events) && r.out == PayloadTold(cfg, r.events)
  {
    hide Look, DelegatedInspection, PsState, DelegateShape, PayloadTold;
    InspectShape(cfg, env, m, node, timeout, kind, args);
    var t := Read(env, m);
    var deadline := t.now + timeout.f.r;
    var look := Look(cfg, env, t, node, deadline);
    LookOutcome(cfg, env, t, node, deadline);
    if look.out.Ok? {
      DelegatedPayloadTold(cfg, env, look.at, node, deadline, kind, args);
      InspectedTold(cfg, node, look.events, DelegatedInspection(cfg, env, look.at, node, deadline, kind, args));
    } else {
      LookTold(cfg, env, t, node, deadline);
    }
  }
}
