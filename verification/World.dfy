/** The outside world of the lifecycle adapter: a monotone clock that anyone may delay, Docker
    commands that may answer anything after any time, and the record of what was run.

    A script fixes what happens at every step, so a statement for all scripts is a statement
    for every run. Time passes only while the clock is being read (the local work done since
    the last step), while a command runs, and while the program sleeps. */
module World {
  import opened Outcome
  import opened Runs
  import opened Process

  /** What one step of the world does: how long local work before it took, how long a command or
      an overlong sleep lasted, the command's reply, and the answer of a local look-up. */
  datatype Tick = Tick(drift: Span, lasts: Span, reply: Reply, found: bool)

  type Script = nat -> Tick

  datatype Cmd =
    | DockerInfo
    | NetworkList
    | NetworkInspect(name: string)
    | ImageInspect(image: string)
    | ImageBuild(image: string)
    | ComposeUp(node: string)
    | ComposeStop(node: string, grace: int)
    | ComposePs(node: string)
    | RunStatus(node: string)
    | RunInspect(node: string, kind: string, args: seq<string>)

  datatype Event =
    | Ran(cmd: Cmd, budget: real, began: real, ended: real, reply: Reply)
    | Probing(at: real, budget: real)
    | Slept(amount: real, began: real, ended: real)

  /** `time.monotonic()` */
  function Read(env: Script, m: Moment): (r: Moment)
    ensures r.now >= m.now && r.step == m.step + 1
  {
    After(m, env(m.step).drift)
  }

  // ----- What is said about runs -----

  /** Local work takes no time. */
  ghost predicate Instant(env: Script) {
    forall n: nat :: env(n).drift == 0.0
  }

  /** Commands end within the timeout they were given, and sleeps are not overlong. */
  predicate Honoured(es: seq<Event>) {
    forall e :: e in es ==>
      match e
      case Ran(_, budget, began, ended, _) => ended - began <= budget
      case Probing(_, _) => true
      case Slept(amount, began, ended) => ended == began + amount
  }

  /** Time only moves forward, and every command was dispatched before the deadline with a
      timeout of exactly the time then left. */
  predicate Timely(m: Moment, deadline: real, at: Moment, events: seq<Event>) {
    m.now <= at.now && m.step <= at.step &&
    forall e :: e in events ==>
      e.Ran? && m.now <= e.began <= e.ended <= at.now && 0.0 < e.budget == deadline - e.began
  }

  /** With instant local work and honoured timeouts, the work is over by the deadline. */
  ghost predicate EndsBy(env: Script, m: Moment, deadline: real, at: Moment, events: seq<Event>) {
    Instant(env) && Honoured(events) ==> at.now <= Later(m.now, deadline)
  }

  /** What everything that shares one deadline keeps. */
  ghost predicate InTime(env: Script, m: Moment, deadline: real, at: Moment, events: seq<Event>) {
    Timely(m, deadline, at, events) && EndsBy(env, m, deadline, at, events)
  }

  lemma HonouredParts(a: seq<Event>, b: seq<Event>)
    ensures Honoured(a + b) <==> Honoured(a) && Honoured(b)
  {
    assert forall e :: e in a + b <==> e in a || e in b;
  }

  lemma IdleInTime(env: Script, m: Moment, deadline: real)
    ensures InTime(env, m, deadline, m, []) && InTime(env, m, deadline, Read(env, m), [])
  {
  }

  /** Two pieces of work under one deadline, one after the other, are again in time. */
  lemma Sequel(env: Script, m: Moment, deadline: real, mid: Moment, a: seq<Event>, at: Moment, b: seq<Event>)
    requires InTime(env, m, deadline, mid, a) && InTime(env, mid, deadline, at, b)
    ensures InTime(env, m, deadline, at, a + b)
  {
    HonouredParts(a, b);
    assert forall e :: e in a + b <==> e in a || e in b;
  }

  lemma AfterRead(env: Script, m: Moment, deadline: real, at: Moment, events: seq<Event>)
    requires InTime(env, Read(env, m), deadline, at, events)
    ensures InTime(env, m, deadline, at, events)
  {
    IdleInTime(env, m, deadline);
    Sequel(env, m, deadline, Read(env, m), [], at, events);
    assert [] + events == events;
  }

  /** One deadline-scoped command: read the clock, give up if nothing is left, else run it. */
  function Issue(env: Script, m: Moment, deadline: real, cmd: Cmd, expired: Failure): (r: Run<Reply, Event>)
    ensures InTime(env, m, deadline, r.at, r.events)
    ensures r.out.Err? ==> r.events == [] && r.out.error == expired
    ensures r.out.Ok? ==> |r.events| == 1 && r.events[0].Ran? && r.events[0].cmd == cmd
    ensures r.out.Ok? ==> r.events[0].reply == r.out.value
  {
    var t := Read(env, m);
    var left := deadline - t.now;
    if left <= 0.0 then Run(Err(expired), t, [])
    else
      var tick := env(t.step);
      var ended := t.now + tick.lasts;
      var e := Ran(cmd, left, t.now, ended, tick.reply);
      assert e in [e];
      Run(Ok(tick.reply), After(t, tick.lasts), [e])
  }
}
