/** What every run of the lifecycle adapter keeps: which commands are run, in which order,
    after which observations, and what a normal return means. */
module AdapterSafety {
  import opened Outcome
  import opened Text
  import opened Json
  import opened Domain
  import opened Process
  import opened Cidr
  import opened Runs
  import opened World
  import opened Health
  import opened Containers
  import opened AdapterSpec
  import ErrorEnvelope

  /** The command ran and exited with code 0. */
  predicate Succeeded(e: Event) { e.Ran? && e.reply.Exited? && e.reply.code == 0 }

  predicate LiveDaemon(e: Event) { Succeeded(e) && e.cmd == DockerInfo }

  /** The lifecycle state that an event lets the adapter see. */
  function Observed(cfg: Config, e: Event): Option<LifecycleState> {
    if Succeeded(e) && e.cmd.ComposePs? then Some(PsState(cfg.lib.loads, e.reply.out)) else None
  }

  /** The event showed a node in some state other than STOPPED. */
  predicate SawRunning(cfg: Config, e: Event) {
    Observed(cfg, e).Some? && Observed(cfg, e) != Some(STOPPED)
  }

  // ----- Runs of a script that is known for the next steps -----

  /** A command for which there is time is run, whatever comes of it. */
  lemma Dispatched(env: Script, m: Moment, deadline: real, cmd: Cmd, expired: Failure)
    requires env(m.step).drift == 0.0 && m.now < deadline
    ensures var (r, tick) := (Issue(env, m, deadline, cmd, expired), env(m.step + 1));
      r.out == Ok(tick.reply) && r.at == Moment(m.now + tick.lasts, m.step + 2) &&
      r.events == [Ran(cmd, deadline - m.now, m.now, m.now + tick.lasts, tick.reply)] &&
      (tick.lasts <= deadline - m.now ==> Honoured(r.events))
  {
    hide InTime;
  }

  /** A daemon that is there and answers. */
  lemma LiveRuntime(env: Script, m: Moment, deadline: real)
    requires env(m.step).found && env(m.step).drift == env(m.step + 1).drift == 0.0 && m.now < deadline
    requires env(m.step + 2).reply.Exited? && env(m.step + 2).reply.code == 0
    ensures var (r, tick) := (CheckRuntime(env, m, deadline), env(m.step + 2));
      r.out.Ok? && r.at == Moment(m.now + tick.lasts, m.step + 3) && |r.events| == 1 && LiveDaemon(r.events[0]) &&
      (tick.lasts <= deadline - m.now ==> Honoured(r.events))
  {
    hide InTime, Issue, Honoured;
    Dispatched(env, Read(env, m), deadline, DockerInfo, RuntimeUnavailableError);
  }

  // ----- Single pieces -----

  lemma RuntimeShape(env: Script, m: Moment, deadline: real)
    ensures var r := CheckRuntime(env, m, deadline);
      |r.events| <= 1 && (r.out.Ok? <==> |r.events| == 1 && LiveDaemon(r.events[0])) &&
      (forall e :: e in r.events ==> e.Ran? && e.cmd == DockerInfo) &&
      (r.out.Err? ==> r.out.error == RuntimeUnavailableError || r.out.error == OtherException) &&
      (r.out == Err(OtherException) <==> |r.events| == 1 && r.events[0].reply.Raised?)
  {
  }

  /** The two commands of a state check: a live daemon, then `ps`. */
  predicate StateShape(cfg: Config, node: string, r: Run<LifecycleState, Event>) {
    var es := r.events;
    |es| <= 2 && (forall e :: e in es ==> e.Ran?) && (|es| >= 1 ==> es[0].cmd == DockerInfo) &&
    (|es| == 2 ==> LiveDaemon(es[0]) && es[1].cmd == ComposePs(node)) &&
    (r.out.Ok? <==> |es| == 2 && Succeeded(es[1])) &&
    (r.out.Ok? ==> Observed(cfg, es[1]) == Some(r.out.value)) &&
    (r.out.Err? ==> r.out.error == RuntimeUnavailableError || r.out.error == OtherException) &&
    (r.out == Err(OtherException) <==> exists e :: e in es && e.Ran? && e.reply.Raised?)
  }

  lemma StateHasShape(cfg: Config, env: Script, m: Moment, node: string, deadline: real)
    ensures StateShape(cfg, node, StateBy(cfg, env, m, node, deadline))
  {
    hide PsState, InTime, CheckRuntime, Issue;
    var rt := CheckRuntime(env, m, deadline);
    RuntimeShape(env, m, deadline);
    var r := StateBy(cfg, env, m, node, deadline);
    if rt.out.Ok? {
      var ps := Issue(env, rt.at, deadline, ComposePs(node), RuntimeUnavailableError);
      assert r.events == rt.events + ps.events;
      if ps.out.Ok? {
        assert r.events[0] == rt.events[0] && r.events[1] == ps.events[0];
        assert r.events[1] in r.events;
      } else {
        assert r.events == rt.events;
      }
    } else {
      if |r.events| == 1 {
        assert r.events[0] in r.events;
      }
    }
  }

  // ----- stop -----

  predicate IsStop(e: Event) { e.Ran? && e.cmd.ComposeStop? }

  /** A run of `stop`: daemon, daemon, `ps`, then perhaps `stop`, daemon, `ps`. */
  predicate StopShape(cfg: Config, node: string, r: Run<(), Event>) {
    var es := r.events;
    |es| <= 6 &&
    (forall i :: 0 <= i < |es| ==> es[i].Ran?) &&
    (forall i :: 0 <= i < |es| && (i == 0 || i == 1 || i == 4) ==> es[i].cmd == DockerInfo) &&
    (forall i :: 0 <= i < |es| && (i == 2 || i == 5) ==> es[i].cmd == ComposePs(node)) &&
    (|es| > 3 ==> es[3].cmd.ComposeStop? && es[3].cmd.node == node && es[3].cmd.grace >= 1) &&
    (forall i :: 0 <= i < |es| - 1 ==> Succeeded(es[i])) &&
    (|es| > 3 ==> Observed(cfg, es[2]) != Some(STOPPED)) &&
    (r.out.Ok? <==> (|es| == 3 && Observed(cfg, es[2]) == Some(STOPPED)) ||
                    (|es| == 6 && Observed(cfg, es[5]) == Some(STOPPED)))
  }

  /** The rest of a run of `stop` that finds a node to stop. */
  predicate StopTailShape(cfg: Config, node: string, r: Run<(), Event>) {
    var es := r.events;
    |es| <= 3 &&
    (|es| >= 1 ==> es[0].Ran? && es[0].cmd.ComposeStop? && es[0].cmd.node == node && es[0].cmd.grace >= 1) &&
    (|es| >= 2 ==> Succeeded(es[0]) && es[1].Ran? && es[1].cmd == DockerInfo) &&
    (|es| == 3 ==> Succeeded(es[1]) && es[2].Ran? && es[2].cmd == ComposePs(node)) &&
    (r.out.Ok? <==> |es| == 3 && Observed(cfg, es[2]) == Some(STOPPED))
  }

  lemma StopAndCheckShape(cfg: Config, env: Script, m: Moment, node: string, deadline: real)
    ensures StopTailShape(cfg, node, StopAndCheck(cfg, env, m, node, deadline))
  {
    hide StateBy, PsState, Grace, InTime, Issue;
    var t := Read(env, m);
    if deadline - t.now > 0.0 {
      var halt := Issue(env, t, deadline, ComposeStop(node, Grace(deadline - t.now)), ShutdownTimeoutError);
      if halt.out.Ok? && StopOutcome(halt.out.value).Ok? {
        StateHasShape(cfg, env, halt.at, node, deadline);
        var post := StateBy(cfg, env, halt.at, node, deadline);
        StopTailJoined(cfg, node, halt.events, post, StopAndCheck(cfg, env, m, node, deadline));
      }
    }
  }

  lemma StopTailJoined(cfg: Config, node: string, halt: seq<Event>, post: Run<LifecycleState, Event>, r: Run<(), Event>)
    requires |halt| == 1 && Succeeded(halt[0]) && StateShape(cfg, node, post)
    requires halt[0].cmd.ComposeStop? && halt[0].cmd.node == node && halt[0].cmd.grace >= 1
    requires r.events == halt + post.events && (r.out.Ok? <==> post.out == Ok(STOPPED))
    ensures StopTailShape(cfg, node, r)
  {
    hide PsState;
    var es := r.events;
    assert es[0] == halt[0];
    assert |es| > 1 ==> es[1] == post.events[0];
    assert |es| > 2 ==> es[2] == post.events[1];
  }

  /** The first three commands of `stop`, `probe_health` and `inspect_*`. */
  predicate LookShape(cfg: Config, node: string, es: seq<Event>) {
    |es| <= 3 &&
    (forall i :: 0 <= i < |es| ==> es[i].Ran? && es[i].cmd == if i == 2 then ComposePs(node) else DockerInfo) &&
    (forall i :: 0 <= i < |es| - 1 ==> Succeeded(es[i]))
  }

  lemma LookHasShape(cfg: Config, env: Script, m: Moment, node: string, deadline: real)
    ensures var rt := CheckRuntime(env, m, deadline);
      var pre := StateBy(cfg, env, rt.at, node, deadline);
      LookShape(cfg, node, rt.events) &&
      (rt.out.Ok? ==> LookShape(cfg, node, rt.events + pre.events)) &&
      (rt.out.Ok? ==> (pre.out.Ok? <==> |rt.events + pre.events| == 3 && Succeeded((rt.events + pre.events)[2]))) &&
      (rt.out.Ok? && pre.out.Ok? ==> Observed(cfg, (rt.events + pre.events)[2]) == Some(pre.out.value))
  {
    hide PsState;
    hide CheckRuntime, StateBy;
    var rt := CheckRuntime(env, m, deadline);
    RuntimeShape(env, m, deadline);
    StateHasShape(cfg, env, rt.at, node, deadline);
    if rt.out.Ok? {
      LookJoined(cfg, node, rt.events, StateBy(cfg, env, rt.at, node, deadline));
    } else {
      assert |rt.events| == 1 ==> rt.events[0] in rt.events;
    }
  }

  lemma LookJoined(cfg: Config, node: string, d: seq<Event>, pre: Run<LifecycleState, Event>)
    requires |d| == 1 && LiveDaemon(d[0]) && StateShape(cfg, node, pre)
    ensures var es := d + pre.events;
      LookShape(cfg, node, es) && (pre.out.Ok? <==> |es| == 3 && Succeeded(es[2])) &&
      (pre.out.Ok? ==> Observed(cfg, es[2]) == Some(pre.out.value))
  {
    hide PsState;
    var es := d + pre.events;
    assert es[0] == d[0];
    assert |es| > 1 ==> es[1] == pre.events[0];
    assert |es| > 2 ==> es[2] == pre.events[1];
  }

  lemma StopJoined(cfg: Config, node: string, seen: seq<Event>, rest: Run<(), Event>)
    requires LookShape(cfg, node, seen) && |seen| == 3 && SawRunning(cfg, seen[2]) && StopTailShape(cfg, node, rest)
    ensures StopShape(cfg, node, Run(rest.out, rest.at, seen + rest.events))
  {
    hide PsState;
    var es := seen + rest.events;
    assert es[0] == seen[0] && es[1] == seen[1] && es[2] == seen[2];
    assert |es| > 3 ==> es[3] == rest.events[0];
    assert |es| > 4 ==> es[4] == rest.events[1];
    assert |es| > 5 ==> es[5] == rest.events[2];
  }

  lemma StopHasShape(cfg: Config, env: Script, m: Moment, node: string, timeout: real)
    ensures StopShape(cfg, node, Stop(cfg, env, m, node, timeout))
  {
    hide StopBy, StopShape;
    var t := Read(env, m);
    StopByHasShape(cfg, env, t, node, t.now + timeout);
  }

  lemma StopByHasShape(cfg: Config, env: Script, t: Moment, node: string, deadline: real)
    ensures StopShape(cfg, node, StopBy(cfg, env, t, node, deadline))
  {
    hide CheckRuntime, StateBy, StopAndCheck, PsState;
    var rt := CheckRuntime(env, t, deadline);
    LookHasShape(cfg, env, t, node, deadline);
    RuntimeShape(env, t, deadline);
    if rt.out.Ok? {
      var pre := StateBy(cfg, env, rt.at, node, deadline);
      if pre.out.Ok? && !pre.out.value.STOPPED? {
        StopAndCheckShape(cfg, env, pre.at, node, deadline);
        StopJoined(cfg, node, rt.events + pre.events, StopAndCheck(cfg, env, pre.at, node, deadline));
      }
    }
  }

  /** `stop` runs at most one `stop` command, right after seeing that the node is not STOPPED,
      and returns normally exactly when the last thing it did was to see the node STOPPED. */
  lemma StopSafe(cfg: Config, env: Script, m: Moment, node: string, timeout: real)
    ensures var r := Stop(cfg, env, m, node, timeout);
      var es := r.events;
      (forall i, j :: 0 <= i < |es| && 0 <= j < |es| && IsStop(es[i]) && IsStop(es[j]) ==> i == j) &&
      (forall i :: 0 <= i < |es| && IsStop(es[i]) ==>
        i > 0 && Observed(cfg, es[i - 1]).Some? && Observed(cfg, es[i - 1]) != Some(STOPPED)) &&
      (r.out.Ok? <==> es != [] && Observed(cfg, es[|es| - 1]) == Some(STOPPED))
  {
    hide PsState;
    StopHasShape(cfg, env, m, node, timeout);
  }

  /** A second `stop` that sees no other state than the first one ended with stops nothing. */
  lemma SecondStopIsIdle(cfg: Config, env: Script, m: Moment, node: string, timeout: real, again: real)
    requires Stop(cfg, env, m, node, timeout).out.Ok?
    requires var first := Stop(cfg, env, m, node, timeout);
      forall e :: e in Stop(cfg, env, first.at, node, again).events && Observed(cfg, e).Some? ==>
        first.events != [] && Observed(cfg, e) == Observed(cfg, first.events[|first.events| - 1])
    ensures var second := Stop(cfg, env, Stop(cfg, env, m, node, timeout).at, node, again);
      (forall e :: e in second.events ==> !IsStop(e)) &&
      (second.out.Ok? <==> exists e :: e in second.events && Observed(cfg, e).Some?)
  {
    hide Stop;
    StopSafe(cfg, env, m, node, timeout);
    var at := Stop(cfg, env, m, node, timeout).at;
    StopHasShape(cfg, env, at, node, again);
    IdleShape(cfg, node, Stop(cfg, env, at, node, again));
  }

  lemma IdleShape(cfg: Config, node: string, r: Run<(), Event>)
    requires StopShape(cfg, node, r)
    requires forall e :: e in r.events && Observed(cfg, e).Some? ==> Observed(cfg, e) == Some(STOPPED)
    ensures forall e :: e in r.events ==> !IsStop(e)
    ensures r.out.Ok? <==> exists e :: e in r.events && Observed(cfg, e).Some?
  {
    hide PsState;
    var es := r.events;
    assert |es| > 3 ==> es[2] in es && Observed(cfg, es[2]).Some?;
    assert |es| <= 3;
    assert forall e :: e in es ==> (|es| > 0 && e == es[0]) || (|es| > 1 && e == es[1]) || (|es| > 2 && e == es[2]);
    assert |es| == 3 ==> es[2] in es;
  }

  // ----- probe_health and inspect_*: read-only -----

  predicate Harmless(c: Cmd) { c.DockerInfo? || c.ComposePs? || c.RunStatus? || c.RunInspect? }

  predicate IsDelegated(c: Cmd) { c.RunStatus? || c.RunInspect? }

  /** Only harmless commands, and each delegated one right after seeing a node that is not STOPPED. */
  predicate ReadOnly(cfg: Config, es: seq<Event>) {
    (forall i :: 0 <= i < |es| ==> es[i].Ran? && Harmless(es[i].cmd)) &&
    (forall i :: 0 <= i < |es| && IsDelegated(es[i].cmd) ==> i > 0 && SawRunning(cfg, es[i - 1]))
  }

  lemma StateIsReadOnly(cfg: Config, env: Script, m: Moment, node: string)
    ensures ReadOnly(cfg, GetState(cfg, env, m, node).events)
  {
    hide PsState;
    hide StateBy;
    var t := Read(env, m);
    StateHasShape(cfg, env, t, node, t.now + 10.0);
  }

  // ----- What a look at the node can come to -----

  /** The daemon answered, but no state was ever observed, and nothing unforeseen was raised. */
  predicate LostSight(cfg: Config, es: seq<Event>) {
    es != [] && LiveDaemon(es[0]) && forall e :: e in es ==> e.Ran? && !e.reply.Raised? && Observed(cfg, e).None?
  }

  /** A command ended in an exception that no one foresees. */
  predicate SomethingRaised(es: seq<Event>) {
    exists e :: e in es && e.Ran? && e.reply.Raised?
  }

  lemma RaisedJoined(a: seq<Event>, b: seq<Event>)
    ensures SomethingRaised(a + b) <==> SomethingRaised(a) || SomethingRaised(b)
  {
    assert forall e :: e in a + b <==> e in a || e in b;
  }

  lemma RuntimeRaises(env: Script, m: Moment, deadline: real)
    ensures CheckRuntime(env, m, deadline).out == Err(OtherException) <==>
            SomethingRaised(CheckRuntime(env, m, deadline).events)
  {
    hide CheckRuntime;
    RuntimeShape(env, m, deadline);
    var es := CheckRuntime(env, m, deadline).events;
    assert |es| == 1 ==> es[0] in es;
  }

  lemma LookLostSight(cfg: Config, node: string, d: seq<Event>, pre: Run<LifecycleState, Event>)
    requires |d| == 1 && LiveDaemon(d[0]) && StateShape(cfg, node, pre)
    ensures LostSight(cfg, d + pre.events) <==> pre.out == Err(RuntimeUnavailableError)
    ensures pre.out.Ok? ==> |pre.events| == 2 && Observed(cfg, pre.events[1]).Some?
  {
    hide PsState;
    var es := pre.events;
    assert forall e :: e in es <==> (|es| >= 1 && e == es[0]) || (|es| == 2 && e == es[1]);
    assert forall e :: e in d + es <==> e == d[0] || e in es;
  }

  /** A look is good exactly when it ended in a `ps` that showed the node in a state other than STOPPED. */
  lemma LookOutcome(cfg: Config, env: Script, t: Moment, node: string, deadline: real)
    ensures var r := Look(cfg, env, t, node, deadline);
      LookShape(cfg, node, r.events) &&
      (r.out.Ok? <==> |r.events| == 3 && SawRunning(cfg, r.events[2])) &&
      (r.out == Err(RuntimeUnavailableError) <==> LostSight(cfg, r.events)) &&
      (r.out == Err(OtherException) <==> SomethingRaised(r.events)) &&
      (r.out.Err? ==> r.out.error in {RpcUnavailableError, RuntimeUnavailableError, OtherException})
  {
    hide CheckRuntime, StateBy, PsState, SomethingRaised;
    var rt := CheckRuntime(env, t, deadline);
    RuntimeShape(env, t, deadline);
    RuntimeRaises(env, t, deadline);
    LookHasShape(cfg, env, t, node, deadline);
    if rt.out.Ok? {
      var pre := StateBy(cfg, env, rt.at, node, deadline);
      StateHasShape(cfg, env, rt.at, node, deadline);
      StateRaises(cfg, node, pre);
      LookLostSight(cfg, node, rt.events, pre);
      RaisedJoined(rt.events, pre.events);
    }
  }

  lemma StateRaises(cfg: Config, node: string, pre: Run<LifecycleState, Event>)
    requires StateShape(cfg, node, pre)
    ensures pre.out == Err(OtherException) <==> SomethingRaised(pre.events)
  {
    hide PsState;
  }

  /** The look, and then at most one delegated command, which needs a node seen running. */
  predicate DelegateShape(cfg: Config, node: string, cmd: Cmd, es: seq<Event>) {
    |es| <= 4 && LookShape(cfg, node, es[..if |es| == 4 then 3 else |es|]) &&
    (|es| == 4 ==> es[3].Ran? && es[3].cmd == cmd && SawRunning(cfg, es[2]))
  }

  lemma DelegatedLast(cfg: Config, node: string, cmd: Cmd, seen: seq<Event>, last: seq<Event>)
    requires LookShape(cfg, node, seen) && |last| <= 1
    requires last != [] ==> |seen| == 3 && SawRunning(cfg, seen[2]) && last[0].Ran? && last[0].cmd == cmd
    ensures DelegateShape(cfg, node, cmd, seen + last)
    ensures last != [] ==> |seen + last| == 4 && (seen + last)[3] == last[0]
  {
    assert last == [] ==> seen + last == seen && seen[..|seen|] == seen;
    assert last != [] ==> (seen + last)[..3] == seen;
  }

  lemma NothingDone(cfg: Config, node: string, cmd: Cmd)
    ensures DelegateShape(cfg, node, cmd, []) && !ReportsHealth(cfg, [])
  {
  }

  lemma DelegateIsReadOnly(cfg: Config, node: string, cmd: Cmd, es: seq<Event>)
    requires DelegateShape(cfg, node, cmd, es) && IsDelegated(cmd)
    ensures ReadOnly(cfg, es)
  {
    hide PsState;
    var look := es[..if |es| == 4 then 3 else |es|];
    assert forall i :: 0 <= i < |look| ==> es[i] == look[i];
  }

  /** `probe_health` reports HEALTHY exactly when the delegated probe ran, ended well and
      printed a report that shows health. */
  predicate ReportsHealth(cfg: Config, es: seq<Event>) {
    |es| == 4 && Succeeded(es[3]) && ShowsHealthy(cfg.lib, es[3].reply.out)
  }

  lemma DelegatedProbeShape(cfg: Config, env: Script, m: Moment, node: string, deadline: real)
    ensures var r := DelegatedProbe(cfg, env, m, node, deadline);
      |r.events| <= 1 && (r.events != [] ==> r.events[0].Ran? && r.events[0].cmd == RunStatus(node)) &&
      (r.out.Ok? && r.out.value.state == HEALTHY <==>
        r.events != [] && Succeeded(r.events[0]) && ShowsHealthy(cfg.lib, r.events[0].reply.out))
  {
    hide HostHealth, ShowsHealthy, HasPart;
    var run := Issue(env, m, deadline, RunStatus(node), StartupTimeoutError);
    if run.out.Ok? && run.out.value.Exited? {
      HealthySound(cfg.lib, run.out.value.out);
    }
  }

  lemma ProbeShape(cfg: Config, env: Script, m: Moment, node: string, timeout: real)
    ensures var r := ProbeHealth(cfg, env, m, node, timeout);
      DelegateShape(cfg, node, RunStatus(node), r.events) &&
      (r.out.Ok? && r.out.value.state == HEALTHY <==> ReportsHealth(cfg, r.events))
  {
    hide ProbeBy, DelegateShape, ReportsHealth;
    NothingDone(cfg, node, RunStatus(node));
    if timeout > 0.0 {
      var t := Read(env, m);
      ProbeByShape(cfg, env, t, node, t.now + timeout);
    }
  }

  lemma ProbeByShape(cfg: Config, env: Script, t: Moment, node: string, deadline: real)
    ensures var r := ProbeBy(cfg, env, t, node, deadline);
      DelegateShape(cfg, node, RunStatus(node), r.events) &&
      (r.out.Ok? && r.out.value.state == HEALTHY <==> ReportsHealth(cfg, r.events))
  {
    hide CheckRuntime, StateBy, DelegatedProbe, ShowsHealthy, PsState;
    var rt := CheckRuntime(env, t, deadline);
    RuntimeShape(env, t, deadline);
    LookHasShape(cfg, env, t, node, deadline);
    if rt.out.Ok? {
      var pre := StateBy(cfg, env, rt.at, node, deadline);
      var seen := rt.events + pre.events;
      if pre.out.Ok? && !pre.out.value.STOPPED? {
        DelegatedProbeShape(cfg, env, pre.at, node, deadline);
        DelegatedLast(cfg, node, RunStatus(node), seen, DelegatedProbe(cfg, env, pre.at, node, deadline).events);
      } else {
        DelegatedLast(cfg, node, RunStatus(node), seen, []);
        assert seen + [] == seen;
      }
    } else {
      DelegatedLast(cfg, node, RunStatus(node), rt.events, []);
      assert rt.events + [] == rt.events;
    }
  }

  lemma ProbeIsReadOnly(cfg: Config, env: Script, m: Moment, node: string, timeout: real)
    ensures ReadOnly(cfg, ProbeHealth(cfg, env, m, node, timeout).events)
  {
    hide ProbeHealth;
    ProbeShape(cfg, env, m, node, timeout);
    DelegateIsReadOnly(cfg, node, RunStatus(node), ProbeHealth(cfg, env, m, node, timeout).events);
  }

  lemma ReadOnlyJoined(cfg: Config, a: seq<Event>, b: seq<Event>)
    requires ReadOnly(cfg, a) && ReadOnly(cfg, b)
    ensures ReadOnly(cfg, a + b)
  {
    hide PsState;
    var es := a + b;
    forall i | 0 <= i < |es|
      ensures es[i].Ran? && Harmless(es[i].cmd)
      ensures IsDelegated(es[i].cmd) ==> i > 0 && SawRunning(cfg, es[i - 1])
    {
      if i >= |a| {
        assert es[i] == b[i - |a|];
        assert i > |a| ==> es[i - 1] == b[i - 1 - |a|];
      }
    }
  }

  /** `get_status` never mutates, and HEALTHY is the word of a delegated probe that showed it. */
  lemma StatusSafe(cfg: Config, env: Script, m: Moment, node: string)
    ensures var r := GetStatus(cfg, env, m, node);
      ReadOnly(cfg, r.events) &&
      (r.out.Ok? && r.out.value.state == HEALTHY ==>
        r.out.value.health.state == HEALTHY && r.events != [] &&
        var last := r.events[|r.events| - 1];
        last.cmd == RunStatus(node) && Succeeded(last) && ShowsHealthy(cfg.lib, last.reply.out))
  {
    hide PsState;
    hide GetState, ProbeHealth, ShowsHealthy;
    StateIsReadOnly(cfg, env, m, node);
    var st := GetState(cfg, env, m, node);
    ProbeIsReadOnly(cfg, env, st.at, node, 5.0);
    ProbeShape(cfg, env, st.at, node, 5.0);
    var probe := ProbeHealth(cfg, env, st.at, node, 5.0);
    ReadOnlyJoined(cfg, st.events, probe.events);
  }

  lemma InspectShape(cfg: Config, env: Script, m: Moment, node: string, timeout: TimeoutArg, kind: string,
                     args: seq<string>)
    ensures var r := Inspect(cfg, env, m, node, timeout, kind, args);
      DelegateShape(cfg, node, RunInspect(node, kind, args), r.events) &&
      (r.out.Ok? ==> |r.events| == 4 && Succeeded(r.events[3]))
  {
    hide InspectBy, DelegateShape;
    NothingDone(cfg, node, RunInspect(node, kind, args));
    if GoodDeadline(timeout) {
      var t := Read(env, m);
      InspectByShape(cfg, env, t, node, t.now + timeout.f.r, kind, args);
    }
  }

  lemma InspectByShape(cfg: Config, env: Script, t: Moment, node: string, deadline: real, kind: string,
                       args: seq<string>)
    ensures var r := InspectBy(cfg, env, t, node, deadline, kind, args);
      DelegateShape(cfg, node, RunInspect(node, kind, args), r.events) &&
      (r.out.Ok? ==> |r.events| == 4 && Succeeded(r.events[3]))
  {
    hide Look, DelegatedInspection, PsState;
    var cmd := RunInspect(node, kind, args);
    var look := Look(cfg, env, t, node, deadline);
    LookOutcome(cfg, env, t, node, deadline);
    if look.out.Ok? {
      DelegatedInspectionShape(cfg, env, look.at, node, deadline, kind, args);
      var run := DelegatedInspection(cfg, env, look.at, node, deadline, kind, args);
      DelegatedLast(cfg, node, cmd, look.events, run.events);
    } else {
      DelegatedLast(cfg, node, cmd, look.events, []);
      assert look.events + [] == look.events;
    }
  }

  lemma DelegatedInspectionShape(cfg: Config, env: Script, m: Moment, node: string, deadline: real, kind: string,
                                 args: seq<string>)
    ensures var r := DelegatedInspection(cfg, env, m, node, deadline, kind, args);
      |r.events| <= 1 && (r.events != [] ==> r.events[0].Ran? && r.events[0].cmd == RunInspect(node, kind, args)) &&
      (r.out.Ok? ==> r.events != [] && Succeeded(r.events[0]))
  {
  }

  /** No inspection mutates, and each delegated command follows a look at a node that is not STOPPED. */
  lemma InspectIsReadOnly(cfg: Config, env: Script, m: Moment, node: string, timeout: TimeoutArg, kind: string,
                          args: seq<string>)
    ensures ReadOnly(cfg, Inspect(cfg, env, m, node, timeout, kind, args).events)
  {
    hide Inspect;
    InspectShape(cfg, env, m, node, timeout, kind, args);
    DelegateIsReadOnly(cfg, node, RunInspect(node, kind, args), Inspect(cfg, env, m, node, timeout, kind, args).events);
  }

  // ----- probe_health and its documentation -----

  /** `probe_health` is documented to answer UNKNOWN when its budget expires. It raises
      `RuntimeUnavailableError` instead exactly when the daemon was found alive but the state
      check that follows could not observe a state (and nothing unforeseen was raised). */
  lemma ProbeRaisesIff(cfg: Config, env: Script, m: Moment, node: string, timeout: real)
    ensures var r := ProbeHealth(cfg, env, m, node, timeout);
      r.out == Err(RuntimeUnavailableError) <==> LostSight(cfg, r.events)
  {
    hide ProbeBy;
    if timeout > 0.0 {
      var t := Read(env, m);
      ProbeByRaisesIff(cfg, env, t, node, t.now + timeout);
    }
  }

  lemma ProbeByRaisesIff(cfg: Config, env: Script, t: Moment, node: string, deadline: real)
    ensures var r := ProbeBy(cfg, env, t, node, deadline);
      r.out == Err(RuntimeUnavailableError) <==> LostSight(cfg, r.events)
  {
    hide CheckRuntime, StateBy, DelegatedProbe, PsState;
    var rt := CheckRuntime(env, t, deadline);
    RuntimeShape(env, t, deadline);
    if rt.out.Ok? {
      var pre := StateBy(cfg, env, rt.at, node, deadline);
      StateHasShape(cfg, env, rt.at, node, deadline);
      LookLostSight(cfg, node, rt.events, pre);
      if pre.out.Ok? && !pre.out.value.STOPPED? {
        var probe := DelegatedProbe(cfg, env, pre.at, node, deadline);
        DelegatedProbeRaises(cfg, env, pre.at, node, deadline);
        assert pre.events[1] in rt.events + pre.events + probe.events;
      }
    }
  }

  lemma DelegatedProbeRaises(cfg: Config, env: Script, m: Moment, node: string, deadline: real)
    ensures DelegatedProbe(cfg, env, m, node, deadline).out != Err(RuntimeUnavailableError)
  {
  }

  /** The inspections let the same error out, in the same runs, though only `RpcError`s are documented. */
  lemma InspectRaisesIff(cfg: Config, env: Script, m: Moment, node: string, timeout: TimeoutArg, kind: string,
                         args: seq<string>)
    ensures var r := Inspect(cfg, env, m, node, timeout, kind, args);
      r.out == Err(RuntimeUnavailableError) <==> LostSight(cfg, r.events)
  {
    hide InspectBy;
    if GoodDeadline(timeout) {
      var t := Read(env, m);
      InspectByRaisesIff(cfg, env, t, node, t.now + timeout.f.r, kind, args);
    }
  }

  lemma InspectByRaisesIff(cfg: Config, env: Script, t: Moment, node: string, deadline: real, kind: string,
                           args: seq<string>)
    ensures var r := InspectBy(cfg, env, t, node, deadline, kind, args);
      r.out == Err(RuntimeUnavailableError) <==> LostSight(cfg, r.events)
  {
    hide Look, DelegatedInspection, PsState;
    LookOutcome(cfg, env, t, node, deadline);
    var look := Look(cfg, env, t, node, deadline);
    if look.out.Ok? {
      var run := DelegatedInspection(cfg, env, look.at, node, deadline, kind, args);
      DelegatedInspectionRaises(cfg, env, look.at, node, deadline, kind, args);
      assert look.events[2] in look.events + run.events;
    }
  }

  /** A delegated inspection fails with an `RpcError`, or with what was raised unforeseen. */
  lemma DelegatedInspectionRaises(cfg: Config, env: Script, m: Moment, node: string, deadline: real, kind: string,
                                  args: seq<string>)
    ensures var r := DelegatedInspection(cfg, env, m, node, deadline, kind, args);
      r.out.Err? ==> r.out.error.IsRpc() || r.out.error == OtherException
  {
    hide ErrorEnvelope.HostFailure, LoadsUnique, InTime, Utf8Len, Strip;
    var run := Issue(env, m, deadline, RunInspect(node, kind, args), RpcTimeoutError);
    if run.out.Ok? && run.out.value.Exited? {
      ErrorEnvelope.HostFailureIsRpc(cfg.lib.loads, run.out.value.err);
    }
  }

  /** A daemon check that uses up the whole budget of five seconds. */
  function SlowDaemon(): Script { n => Tick(0.0, 5.0, Exited(0, "", ""), true) }

  /** A state check that begins when the time is over. */
  lemma LateState(cfg: Config, env: Script, m: Moment, node: string, deadline: real)
    requires m.now >= deadline
    ensures var r := StateBy(cfg, env, m, node, deadline);
      r.out == Err(RuntimeUnavailableError) && r.events == [] && (Instant(env) ==> r.at.now == m.now)
  {
    hide InTime;
  }

  /** That is enough for `probe_health` to raise the error, though the command honoured its timeout. */
  lemma ProbeRaisesOnExpiry(cfg: Config, node: string)
    ensures var r := ProbeHealth(cfg, SlowDaemon(), Moment(0.0, 0), node, 5.0);
      r.out == Err(RuntimeUnavailableError) && Honoured(r.events)
  {
    hide InTime, StateBy, CheckRuntime, Honoured;
    LiveRuntime(SlowDaemon(), Moment(0.0, 1), 5.0);
    var rt := CheckRuntime(SlowDaemon(), Moment(0.0, 1), 5.0);
    LateState(cfg, SlowDaemon(), rt.at, node, 5.0);
    assert rt.events + [] == rt.events;
  }

  lemma LookRaisesOnExpiry(cfg: Config, node: string)
    ensures var r := Look(cfg, SlowDaemon(), Moment(0.0, 1), node, 5.0);
      r.out == Err(RuntimeUnavailableError) && Honoured(r.events)
  {
    hide InTime, StateBy, CheckRuntime, Honoured;
    LiveRuntime(SlowDaemon(), Moment(0.0, 1), 5.0);
    var rt := CheckRuntime(SlowDaemon(), Moment(0.0, 1), 5.0);
    LateState(cfg, SlowDaemon(), rt.at, node, 5.0);
    assert rt.events + [] == rt.events;
  }

  /** And for the inspections. */
  lemma InspectRaisesOnExpiry(cfg: Config, node: string, kind: string, args: seq<string>)
    ensures var r := Inspect(cfg, SlowDaemon(), Moment(0.0, 0), node, Seconds(Finite(5.0)), kind, args);
      r.out == Err(RuntimeUnavailableError) && Honoured(r.events)
  {
    hide InTime, Look, DelegatedInspection, Honoured;
    LookRaisesOnExpiry(cfg, node);
  }

  /** And for `stop`, which is documented to raise `ShutdownTimeoutError`. */
  lemma StopRaisesOnExpiry(cfg: Config, node: string)
    ensures var r := Stop(cfg, SlowDaemon(), Moment(0.0, 0), node, 5.0);
      r.out == Err(RuntimeUnavailableError) && Honoured(r.events)
  {
    hide InTime, StateBy, CheckRuntime, StopAndCheck, Honoured;
    LiveRuntime(SlowDaemon(), Moment(0.0, 1), 5.0);
    var rt := CheckRuntime(SlowDaemon(), Moment(0.0, 1), 5.0);
    LateState(cfg, SlowDaemon(), rt.at, node, 5.0);
    assert rt.events + [] == rt.events;
  }

  // ----- start -----

  predicate IsUp(e: Event) { e.Ran? && e.cmd.ComposeUp? }

  predicate NoUp(es: seq<Event>) { forall e :: e in es ==> !IsUp(e) }

  function Others(names: seq<string>, own: string): seq<string> {
    if names == [] then []
    else (if names[0] == own then [] else [names[0]]) + Others(names[1..], own)
  }

  /** The networks that the text lists, by line. */
  predicate Lists(out: string, name: string) {
    name != "" && exists line :: line in SplitLines(out) && Strip(line) == name
  }

  lemma {:induction false} OthersIff(names: seq<string>, own: string, name: string)
    ensures name in Others(names, own) <==> name in names && name != own
  {
    if names == [] {
    } else {
      OthersIff(names[1..], own, name);
      assert name in names <==> name == names[0] || name in names[1..];
    }
  }

  /** The networks to inspect are the listed ones, but for the project's own. */
  lemma OthersListed(out: string, node: string, name: string)
    ensures name in Others(NetworkNames(out), ProjectNetwork(node)) <==>
            Lists(out, name) && name != node + "_bitheim-net"
  {
    hide SplitLines, Strip, StripAll;
    OthersIff(NetworkNames(out), ProjectNetwork(node), name);
    StripAllIff(SplitLines(out), name);
  }

  /** Every subnet is well formed and shares no address with the target. */
  predicate Clear(lib: Library, target: Network, subnets: seq<string>) {
    forall s :: s in subnets ==> lib.network(s).Some? && !Overlaps(target, lib.network(s).value)
  }

  lemma {:induction false} SubnetsClear(lib: Library, target: Network, subnets: seq<string>)
    ensures CheckSubnets(lib, target, subnets).Ok? <==> Clear(lib, target, subnets)
  {
    if subnets == [] {
    } else {
      SubnetsClear(lib, target, subnets[1..]);
      assert forall s :: s in subnets <==> s == subnets[0] || s in subnets[1..];
    }
  }

  /** The event inspected the network and found all its subnets clear of the target. */
  predicate FoundClear(lib: Library, target: Network, name: string, e: Event) {
    Succeeded(e) && e.cmd == NetworkInspect(name) && Clear(lib, target, Words(e.reply.out))
  }

  predicate AllFoundClear(lib: Library, target: Network, names: seq<string>, es: seq<Event>) {
    |es| == |names| && forall i :: 0 <= i < |names| ==> FoundClear(lib, target, names[i], es[i])
  }

  lemma InspectionShape(lib: Library, env: Script, m: Moment, deadline: real, target: Network, name: string)
    ensures var r := InspectNetwork(lib, env, m, deadline, target, name);
      NoUp(r.events) && |r.events| <= 1 &&
      (r.out.Ok? <==> |r.events| == 1 && FoundClear(lib, target, name, r.events[0]))
  {
    hide InTime, Clear, CheckSubnets, Words;
    var one := Issue(env, m, deadline, NetworkInspect(name), RuntimeUnavailableError);
    if one.out.Ok? && one.out.value.Exited? {
      SubnetsClear(lib, target, Words(one.out.value.out));
    }
  }

  lemma {:induction false} ScanShape(lib: Library, env: Script, m: Moment, deadline: real, target: Network,
                                     own: string, names: seq<string>)
    ensures var r := ScanNetworks(lib, env, m, deadline, target, own, names);
      var others := Others(names, own);
      NoUp(r.events) && |r.events| <= |others| && (r.out.Ok? <==> AllFoundClear(lib, target, others, r.events))
    decreases |names|
  {
    hide InTime, InspectNetwork, FoundClear;
    if names == [] {
    } else if names[0] == own {
      ScanShape(lib, env, m, deadline, target, own, names[1..]);
    } else {
      var one := InspectNetwork(lib, env, m, deadline, target, names[0]);
      InspectionShape(lib, env, m, deadline, target, names[0]);
      if one.out.Ok? {
        ScanShape(lib, env, one.at, deadline, target, own, names[1..]);
        var rest := ScanNetworks(lib, env, one.at, deadline, target, own, names[1..]);
        ScanStep(lib, target, names[0], Others(names[1..], own), one.events[0], rest.events);
        assert one.events == [one.events[0]];
      } else if |one.events| == 1 {
        ScanStep(lib, target, names[0], Others(names[1..], own), one.events[0], []);
        assert one.events == [one.events[0]] + [];
      }
    }
  }

  lemma ScanStep(lib: Library, target: Network, name: string, tail: seq<string>, e: Event, rest: seq<Event>)
    ensures AllFoundClear(lib, target, [name] + tail, [e] + rest) <==>
            FoundClear(lib, target, name, e) && AllFoundClear(lib, target, tail, rest)
  {
    hide FoundClear;
    var names, es := [name] + tail, [e] + rest;
    assert forall i :: 0 <= i < |tail| ==> names[i + 1] == tail[i];
    assert forall i :: 0 <= i < |rest| ==> es[i + 1] == rest[i];
    if AllFoundClear(lib, target, names, es) {
      assert FoundClear(lib, target, names[0], es[0]);
      forall i | 0 <= i < |tail| ensures FoundClear(lib, target, tail[i], rest[i]) {
        assert FoundClear(lib, target, names[i + 1], es[i + 1]);
      }
    }
  }

  /** The networks were listed, and every one but the project's own was found clear. */
  predicate ScanComplete(cfg: Config, node: string, es: seq<Event>) {
    cfg.lib.network(cfg.subnet).Some? && es != [] && Succeeded(es[0]) && es[0].cmd == NetworkList &&
    var others := Others(NetworkNames(es[0].reply.out), ProjectNetwork(node));
    AllFoundClear(cfg.lib, cfg.lib.network(cfg.subnet).value, others, es[1..])
  }

  lemma CollisionShape(cfg: Config, env: Script, m: Moment, node: string, deadline: real)
    ensures var r := CheckCollision(cfg, env, m, node, deadline);
      NoUp(r.events) && (r.out.Ok? <==> ScanComplete(cfg, node, r.events))
  {
    var target := cfg.lib.network(cfg.subnet);
    var list := Issue(env, m, deadline, NetworkList, RuntimeUnavailableError);
    var r := CheckCollision(cfg, env, m, node, deadline);
    if target.Some? && list.out.Ok? && Expect(list.out.value, RuntimeUnavailableError).Ok? {
      var names := NetworkNames(list.out.value.out);
      ScanShape(cfg.lib, env, list.at, deadline, target.value, ProjectNetwork(node), names);
      var scan := ScanNetworks(cfg.lib, env, list.at, deadline, target.value, ProjectNetwork(node), names);
      assert r.events == list.events + scan.events;
      assert r.events[1..] == scan.events && r.events[0] == list.events[0];
    }
  }

  /** No address of the target belongs to any of the subnets, all of which are well formed. */
  ghost predicate SharesNothing(lib: Library, target: Network, subnets: seq<string>) {
    forall s, x :: s in subnets ==>
      lib.network(s).Some? && !(Covers(target, x) && Covers(lib.network(s).value, x))
  }

  lemma ClearIsDisjoint(lib: Library, target: Network, subnets: seq<string>)
    requires Clear(lib, target, subnets)
    ensures SharesNothing(lib, target, subnets)
  {
    hide Overlaps, Covers;
    forall s, x | s in subnets
      ensures lib.network(s).Some? && !(Covers(target, x) && Covers(lib.network(s).value, x))
    {
      OverlapIsIntersection(target, lib.network(s).value);
    }
  }

  /** After a normal return of the collision check, no address of the configured block belongs
      to any subnet of any listed network other than the project's own. */
  lemma NoCollision(cfg: Config, env: Script, m: Moment, node: string, deadline: real, name: string)
    requires var r := CheckCollision(cfg, env, m, node, deadline);
      r.out.Ok? && Lists(r.events[0].reply.out, name) && name != node + "_bitheim-net"
    ensures var r := CheckCollision(cfg, env, m, node, deadline);
      exists e :: e in r.events && Succeeded(e) && e.cmd == NetworkInspect(name) &&
        SharesNothing(cfg.lib, cfg.lib.network(cfg.subnet).value, Words(e.reply.out))
  {
    hide CheckCollision, Words, NetworkNames, Clear, SharesNothing, Lists;
    var r := CheckCollision(cfg, env, m, node, deadline);
    CollisionShape(cfg, env, m, node, deadline);
    var target := cfg.lib.network(cfg.subnet).value;
    var names := NetworkNames(r.events[0].reply.out);
    var others := Others(names, ProjectNetwork(node));
    OthersListed(r.events[0].reply.out, node, name);
    var i :| 0 <= i < |others| && others[i] == name;
    var e := r.events[1..][i];
    assert FoundClear(cfg.lib, target, others[i], e);
    ClearIsDisjoint(cfg.lib, target, Words(e.reply.out));
    assert e in r.events;
  }

  /** The image was found, or was positively missing and then built. */
  predicate ImageReady(image: string, es: seq<Event>) {
    (|es| == 1 && Succeeded(es[0]) && es[0].cmd == ImageInspect(image)) ||
    (|es| == 2 && es[0].Ran? && es[0].cmd == ImageInspect(image) && ImageMissing(es[0].reply) &&
     Succeeded(es[1]) && es[1].cmd == ImageBuild(image))
  }

  lemma ImageShape(env: Script, m: Moment, image: string, context: BuildContext, deadline: real)
    ensures var r := EnsureImage(env, m, image, context, deadline);
      NoUp(r.events) && (r.out.Ok? <==> ImageReady(image, r.events))
  {
    var insp := Issue(env, m, deadline, ImageInspect(image), RuntimeUnavailableError);
    var r := EnsureImage(env, m, image, context, deadline);
    if insp.out.Ok? && ImageMissing(insp.out.value) && context.WithDockerfile? {
      var build := Issue(env, insp.at, deadline, ImageBuild(image), RuntimeUnavailableError);
      assert r.events == insp.events + build.events;
      assert r.events[0] == insp.events[0];
    }
  }

  /** The four preflight steps, each complete, in order. */
  predicate Preflight(cfg: Config, node: string, d: seq<Event>, s: seq<Event>, b: seq<Event>, a: seq<Event>) {
    |d| == 1 && LiveDaemon(d[0]) && ScanComplete(cfg, node, s) &&
    ImageReady(cfg.bitcoinImage, b) && ImageReady(cfg.bitheimImage, a)
  }

  lemma StepShape(k: nat, cfg: Config, env: Script, m: Moment, node: string, deadline: real)
    requires k < 4
    ensures var r := StartStep(k, cfg, env, m, node, deadline);
      NoUp(r.events) &&
      (r.out.Ok? <==> match k
        case 0 => |r.events| == 1 && LiveDaemon(r.events[0])
        case 1 => ScanComplete(cfg, node, r.events)
        case 2 => ImageReady(cfg.bitcoinImage, r.events)
        case _ => ImageReady(cfg.bitheimImage, r.events))
  {
    match k
    case 0 => RuntimeShape(env, m, deadline);
    case 1 => CollisionShape(cfg, env, m, node, deadline);
    case 2 => ImageShape(env, m, cfg.bitcoinImage, cfg.bitcoinContext, deadline);
    case _ => ImageShape(env, m, cfg.bitheimImage, cfg.bitheimContext, deadline);
  }

  /** The run did no `up` and failed, or did the given preflight and then one `up`, as its last
      command, and returned normally exactly when that exited with code 0. */
  predicate EndsWithUp(node: string, pre: seq<Event>, r: Run<(), Event>) {
    (NoUp(r.events) && r.out.Err?) ||
    (NoUp(pre) && |r.events| == |pre| + 1 && r.events[..|pre|] == pre &&
     var up := r.events[|pre|];
     up.Ran? && up.cmd == ComposeUp(node) && (r.out.Ok? <==> Succeeded(up)))
  }

  lemma UpShape(env: Script, m: Moment, node: string, deadline: real)
    ensures EndsWithUp(node, [], Up(env, m, node, deadline))
  {
  }

  lemma UpLater(node: string, step: Run<(), Event>, pre: seq<Event>, rest: Run<(), Event>)
    requires NoUp(step.events) && EndsWithUp(node, pre, rest)
    ensures EndsWithUp(node, step.events + pre, Then(step, rest))
  {
    var es := step.events + rest.events;
    if !NoUp(rest.events) {
      assert es[..|step.events + pre|] == step.events + pre;
    }
  }

  /** Every run of `start` either does no `up` and fails, or passes the whole preflight and then
      runs `up` once, as its last command, returning normally exactly when that exits with code 0. */
  lemma StartSafe(cfg: Config, env: Script, m: Moment, node: string, timeout: real)
    returns (d: seq<Event>, s: seq<Event>, b: seq<Event>, a: seq<Event>)
    ensures var r := Start(cfg, env, m, node, timeout);
      EndsWithUp(node, d + (s + (b + a)), r) && (NoUp(r.events) || Preflight(cfg, node, d, s, b, a))
  {
    hide StartFrom;
    var t := Read(env, m);
    d, s, b, a := StartByShape(cfg, env, t, node, t.now + timeout);
  }

  lemma StartByShape(cfg: Config, env: Script, t: Moment, node: string, deadline: real)
    returns (d: seq<Event>, s: seq<Event>, b: seq<Event>, a: seq<Event>)
    ensures var r := StartFrom(0, cfg, env, t, node, deadline);
      EndsWithUp(node, d + (s + (b + a)), r) && (NoUp(r.events) || Preflight(cfg, node, d, s, b, a))
  {
    hide StartStep, ScanComplete, ImageReady;
    d, s, b, a := [], [], [], [];
    var r0 := StartStep(0, cfg, env, t, node, deadline);
    StepShape(0, cfg, env, t, node, deadline);
    if r0.out.Ok? {
      d := r0.events;
      var rest := StartFrom(1, cfg, env, r0.at, node, deadline);
      s, b, a := NetworksShape(cfg, env, r0.at, node, deadline);
      UpLater(node, r0, s + (b + a), rest);
    }
  }

  lemma NetworksShape(cfg: Config, env: Script, t: Moment, node: string, deadline: real)
    returns (s: seq<Event>, b: seq<Event>, a: seq<Event>)
    ensures var r := StartFrom(1, cfg, env, t, node, deadline);
      EndsWithUp(node, s + (b + a), r) && (NoUp(r.events) || (ScanComplete(cfg, node, s) &&
        ImageReady(cfg.bitcoinImage, b) && ImageReady(cfg.bitheimImage, a)))
  {
    hide StartStep, ScanComplete, ImageReady;
    s, b, a := [], [], [];
    var r1 := StartStep(1, cfg, env, t, node, deadline);
    StepShape(1, cfg, env, t, node, deadline);
    if r1.out.Ok? {
      s := r1.events;
      var rest := StartFrom(2, cfg, env, r1.at, node, deadline);
      b, a := ImagesShape(cfg, env, r1.at, node, deadline);
      UpLater(node, r1, b + a, rest);
    }
  }

  lemma ImagesShape(cfg: Config, env: Script, t: Moment, node: string, deadline: real)
    returns (b: seq<Event>, a: seq<Event>)
    ensures var r := StartFrom(2, cfg, env, t, node, deadline);
      EndsWithUp(node, b + a, r) &&
      (NoUp(r.events) || (ImageReady(cfg.bitcoinImage, b) && ImageReady(cfg.bitheimImage, a)))
  {
    hide StartStep, ScanComplete, ImageReady, Up;
    b, a := [], [];
    var r2 := StartStep(2, cfg, env, t, node, deadline);
    StepShape(2, cfg, env, t, node, deadline);
    if r2.out.Ok? {
      b := r2.events;
      var r3 := StartStep(3, cfg, env, r2.at, node, deadline);
      StepShape(3, cfg, env, r2.at, node, deadline);
      var rest := StartFrom(3, cfg, env, r2.at, node, deadline);
      if r3.out.Ok? {
        a := r3.events;
        var up := Up(env, r3.at, node, deadline);
        UpShape(env, r3.at, node, deadline);
        assert StartFrom(4, cfg, env, r3.at, node, deadline) == up;
        UpLater(node, r3, [], up);
        assert a + [] == a;
      }
      UpLater(node, r2, a, rest);
    }
  }
}
