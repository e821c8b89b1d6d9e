/** Which exception an expired deadline gives, by the command at which it expired. */
module Expiry {
  import opened Outcome
  import opened Process
  import opened Domain
  import opened Runs
  import opened World
  import opened Containers
  import opened AdapterSpec
  import opened AdapterSafety
  import ErrorEnvelope

  /** How many commands came to an end in time. */
  function Completed(es: seq<Event>): nat {
    if es != [] && es[|es| - 1].Ran? && es[|es| - 1].reply.TimedOut? then |es| - 1 else |es|
  }

  /** The run stopped for want of time: its last command timed out, or went well without the next of so many
      being dispatched. (Before a daemon check that is also what a missing executable looks like.) */
  predicate CutShort(es: seq<Event>, all: nat) {
    Completed(es) < |es| || es == [] || (|es| < all && Succeeded(es[|es| - 1]))
  }

  /** The look showed the node at rest, so that nothing more was to be done. */
  predicate AtRestThen(cfg: Config, es: seq<Event>) {
    |es| == 3 && Observed(cfg, es[2]) == Some(STOPPED)
  }

  // ----- The inspections -----

  /** The class of an expired inspection: only the delegated command itself gives `RpcTimeoutError`. */
  function InspectClass(completed: nat): Failure {
    if completed == 0 then RpcUnavailableError
    else if completed < 3 then RuntimeUnavailableError
    else RpcTimeoutError
  }

  lemma LookExpiry(cfg: Config, env: Script, t: Moment, node: string, deadline: real)
    requires Look(cfg, env, t, node, deadline).out.Err?
    ensures var r := Look(cfg, env, t, node, deadline);
      (CutShort(r.events, 4) && !AtRestThen(cfg, r.events) ==>
        r.out == Err(InspectClass(Completed(r.events))) && Completed(r.events) < 3)
  {
    hide Look, PsState;
    LookOutcome(cfg, env, t, node, deadline);
    var es := Look(cfg, env, t, node, deadline).events;
    assert |es| > 0 ==> es[0] in es;
    assert |es| > 1 ==> es[1] in es;
    assert |es| > 2 ==> es[2] in es;
  }

  lemma InspectByExpiry(cfg: Config, env: Script, t: Moment, node: string, deadline: real, kind: string,
                        args: seq<string>)
    ensures var r := InspectBy(cfg, env, t, node, deadline, kind, args);
      (CutShort(r.events, 4) && !AtRestThen(cfg, r.events) ==> r.out == Err(InspectClass(Completed(r.events)))) &&
      (r.out == Err(RpcTimeoutError) <==> TimedOutThere(cfg, r.events))
  {
    hide Look, PsState, DelegatedInspection, ErrorEnvelope.HostFailure;
    LookOutcome(cfg, env, t, node, deadline);
    var look := Look(cfg, env, t, node, deadline);
    if look.out.Err? {
      LookExpiry(cfg, env, t, node, deadline);
    } else {
      var run := DelegatedInspection(cfg, env, look.at, node, deadline, kind, args);
      DelegatedExpiry(cfg, env, look.at, node, deadline, kind, args);
      var es := look.events + run.events;
      assert es[2] == look.events[2] && (run.events != [] ==> es[3] == run.events[0]);
    }
  }

  /** The time was over when the delegated command was to be run, or passed while it ran, or the command itself
      reported a timeout. */
  predicate TimedOutThere(cfg: Config, es: seq<Event>) {
    (|es| == 3 && SawRunning(cfg, es[2])) || (|es| == 4 && TimeoutReply(cfg, es[3]))
  }

  predicate TimeoutReply(cfg: Config, e: Event) {
    e.Ran? && (e.reply.TimedOut? || (e.reply.Exited? && e.reply.code != 0 &&
      ErrorEnvelope.HostFailure(cfg.lib.loads, e.reply.err) == RpcTimeoutError))
  }

  lemma DelegatedExpiry(cfg: Config, env: Script, m: Moment, node: string, deadline: real, kind: string,
                        args: seq<string>)
    ensures var r := DelegatedInspection(cfg, env, m, node, deadline, kind, args);
      |r.events| <= 1 && (forall e :: e in r.events ==> e.Ran?) && (r.events == [] ==> r.out == Err(RpcTimeoutError)) &&
      (r.events != [] ==> (r.out == Err(RpcTimeoutError) <==> TimeoutReply(cfg, r.events[0])))
  {
    hide ErrorEnvelope.HostFailure, LoadsUnique, InTime;
  }

  /** The documented `RpcTimeoutError` comes exactly of the delegated command. A deadline that expires at the first
      daemon check gives `RpcUnavailableError`, and at either command of the state check
      `RuntimeUnavailableError`. */
  lemma InspectExpiry(cfg: Config, env: Script, m: Moment, node: string, timeout: TimeoutArg, kind: string,
                      args: seq<string>)
    requires GoodDeadline(timeout)
    ensures var r := Inspect(cfg, env, m, node, timeout, kind, args);
      (CutShort(r.events, 4) && !AtRestThen(cfg, r.events) ==> r.out == Err(InspectClass(Completed(r.events)))) &&
      (r.out == Err(RpcTimeoutError) <==> TimedOutThere(cfg, r.events))
  {
    hide InspectBy, InTime, CutShort, AtRestThen, TimedOutThere;
    var t := Read(env, m);
    InspectByExpiry(cfg, env, t, node, t.now + timeout.f.r, kind, args);
  }

  // ----- stop -----

  /** The class of an expired `stop`: only the `stop` command itself gives `ShutdownTimeoutError`. */
  function StopClass(completed: nat): Failure {
    if completed == 3 then ShutdownTimeoutError else RuntimeUnavailableError
  }

  /** The last look still showed the node in another state. */
  predicate StillRunning(cfg: Config, es: seq<Event>) {
    |es| == 6 && SawRunning(cfg, es[5])
  }

  /** What is said of `stop` and of each of its parts, so many commands into it. */
  predicate StopExpires(cfg: Config, es: seq<Event>, out: Result<()>) {
    (CutShort(es, 6) && !AtRestThen(cfg, es) ==> out == Err(StopClass(Completed(es)))) &&
    (out == Err(ShutdownTimeoutError) <==>
      (CutShort(es, 6) && !AtRestThen(cfg, es) && Completed(es) == 3) || StillRunning(cfg, es))
  }

  /** The tail of `stop`, by its commands: `stop`, daemon, `ps`. */
  predicate TailExpires(cfg: Config, es: seq<Event>, out: Result<()>) {
    (CutShort(es, 3) ==> out == Err(StopClass(3 + Completed(es)))) &&
    (out == Err(ShutdownTimeoutError) <==>
      (CutShort(es, 3) && Completed(es) == 0) || (|es| == 3 && SawRunning(cfg, es[2])))
  }

  lemma TailHasExpiry(cfg: Config, env: Script, m: Moment, node: string, deadline: real)
    ensures var r := StopAndCheck(cfg, env, m, node, deadline); TailExpires(cfg, r.events, r.out)
  {
    hide StateBy, PsState, Grace, InTime;
    var t := Read(env, m);
    if deadline - t.now > 0.0 {
      var halt := Issue(env, t, deadline, ComposeStop(node, Grace(deadline - t.now)), ShutdownTimeoutError);
      if halt.out.Ok? && StopOutcome(halt.out.value).Ok? {
        StateHasShape(cfg, env, halt.at, node, deadline);
        var post := StateBy(cfg, env, halt.at, node, deadline);
        TailJoined(cfg, node, halt.events, post, StopAndCheck(cfg, env, m, node, deadline));
      }
    }
  }

  lemma TailJoined(cfg: Config, node: string, halt: seq<Event>, post: Run<LifecycleState, Event>, r: Run<(), Event>)
    requires |halt| == 1 && Succeeded(halt[0]) && halt[0].cmd.ComposeStop? && StateShape(cfg, node, post)
    requires r.events == halt + post.events
    requires r.out == if post.out.Err? then Err(post.out.error)
                      else if post.out.value.STOPPED? then Ok(()) else Err(ShutdownTimeoutError)
    ensures TailExpires(cfg, r.events, r.out)
  {
    hide PsState;
    var (es, ps) := (r.events, post.events);
    assert es[0] == halt[0];
    assert |es| > 1 ==> es[1] == ps[0] && ps[0] in ps;
    assert |es| > 2 ==> es[2] == ps[1] && ps[1] in ps;
    assert forall e :: e in ps ==> (|ps| >= 1 && e == ps[0]) || (|ps| == 2 && e == ps[1]);
  }

  lemma StopByExpiry(cfg: Config, env: Script, t: Moment, node: string, deadline: real)
    ensures var r := StopBy(cfg, env, t, node, deadline); StopExpires(cfg, r.events, r.out)
  {
    hide CheckRuntime, StateBy, StopAndCheck, PsState, StopExpires;
    var rt := CheckRuntime(env, t, deadline);
    RuntimeShape(env, t, deadline);
    if rt.out.Err? {
      NoDaemon(cfg, rt);
    } else {
      var pre := StateBy(cfg, env, rt.at, node, deadline);
      StateHasShape(cfg, env, rt.at, node, deadline);
      if pre.out.Err? || pre.out.value.STOPPED? {
        NoStop(cfg, node, rt.events, pre);
      } else {
        var rest := StopAndCheck(cfg, env, pre.at, node, deadline);
        StopAndCheckShape(cfg, env, pre.at, node, deadline);
        TailHasExpiry(cfg, env, pre.at, node, deadline);
        LookHasShape(cfg, env, t, node, deadline);
        TailAfterLook(cfg, rt.events + pre.events, rest);
      }
    }
  }

  lemma NoDaemon(cfg: Config, rt: Run<(), Event>)
    requires |rt.events| <= 1 && (forall e :: e in rt.events ==> e.Ran? && e.cmd == DockerInfo)
    requires rt.out.Err? && rt.out.error in {RuntimeUnavailableError, OtherException}
    requires |rt.events| == 1 ==> !LiveDaemon(rt.events[0])
    requires rt.out == Err(OtherException) <==> |rt.events| == 1 && rt.events[0].reply.Raised?
    ensures StopExpires(cfg, rt.events, rt.out)
  {
    hide PsState;
    assert |rt.events| == 1 ==> rt.events[0] in rt.events;
  }

  lemma NoStop(cfg: Config, node: string, d: seq<Event>, pre: Run<LifecycleState, Event>)
    requires |d| == 1 && LiveDaemon(d[0]) && StateShape(cfg, node, pre)
    requires pre.out.Err? || pre.out.value.STOPPED?
    ensures StopExpires(cfg, d + pre.events, if pre.out.Err? then Err(pre.out.error) else Ok(()))
  {
    hide PsState;
    var (es, ps) := (d + pre.events, pre.events);
    assert es[0] == d[0];
    assert |es| > 1 ==> es[1] == ps[0] && ps[0] in ps;
    assert |es| > 2 ==> es[2] == ps[1] && ps[1] in ps;
    assert forall e :: e in ps ==> (|ps| >= 1 && e == ps[0]) || (|ps| == 2 && e == ps[1]);
  }

  lemma TailAfterLook(cfg: Config, seen: seq<Event>, rest: Run<(), Event>)
    requires |seen| == 3 && SawRunning(cfg, seen[2]) && |rest.events| <= 3 && TailExpires(cfg, rest.events, rest.out)
    ensures StopExpires(cfg, seen + rest.events, rest.out)
  {
    hide PsState;
    var (es, tail) := (seen + rest.events, rest.events);
    assert es[2] == seen[2];
    assert tail != [] ==> es[|es| - 1] == tail[|tail| - 1];
  }

  /** The documented `ShutdownTimeoutError` comes exactly of the `stop` command, or of a node still seen running after
      it. A deadline that expires at a daemon check or a `ps`, before or after, gives
      `RuntimeUnavailableError`. */
  lemma StopExpiry(cfg: Config, env: Script, m: Moment, node: string, timeout: real)
    ensures var r := Stop(cfg, env, m, node, timeout); StopExpires(cfg, r.events, r.out)
  {
    hide StopBy, InTime, StopExpires;
    var t := Read(env, m);
    StopByExpiry(cfg, env, t, node, t.now + timeout);
  }
}
