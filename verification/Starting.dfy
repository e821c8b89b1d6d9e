/** What `start` answers, as a function of nothing but what its commands showed, and which commands those are. */
module Starting {
  import opened Outcome
  import opened Text
  import opened Process
  import opened Cidr
  import opened Runs
  import opened World
  import opened AdapterSpec
  import opened AdapterSafety
  import opened Unforeseen

  // ----- Single steps -----

  /** An inspection that positively says so, in either of two phrases and in any case of letters. */
  predicate SaysMissing(reply: Reply) {
    reply.Exited? && reply.code != 0 &&
    exists i, j :: 0 <= i <= j <= |reply.err| && Lower(reply.err)[i..j] in ["no such image", "not found"]
  }

  lemma ImageMissingIff(reply: Reply)
    ensures ImageMissing(reply) <==> SaysMissing(reply)
  {
    hide HasPart, Lower;
    if reply.Exited? {
      var s := Lower(reply.err);
      HasPartIff(s, "no such image");
      HasPartIff(s, "not found");
      if i, j :| 0 <= i <= j <= |reply.err| && s[i..j] in ["no such image", "not found"] {
        assert s[i..j] == "no such image" || s[i..j] == "not found";
      }
    }
  }

  /** The commands that make sure of an image, and how they are answered: a build only of an image that is
      positively missing and has a Dockerfile. */
  predicate ImageTold(image: string, context: BuildContext, es: seq<Event>, out: Result<()>) {
    |es| <= 2 && (forall e :: e in es ==> e.Ran?) &&
    (es != [] ==> es[0].cmd == ImageInspect(image)) &&
    (|es| == 2 ==> es[1].cmd == ImageBuild(image) && SaysMissing(es[0].reply) && context == WithDockerfile) &&
    (out == Err(OtherException) <==> SomethingRaised(es)) &&
    (out.Ok? <==> es != [] && Succeeded(es[|es| - 1])) &&
    (out.Err? ==> out.error in {RuntimeUnavailableError, OtherException})
  }

  lemma EnsureImageTold(env: Script, m: Moment, image: string, context: BuildContext, deadline: real)
    ensures var r := EnsureImage(env, m, image, context, deadline);
      ImageTold(image, context, r.events, r.out)
  {
    hide InTime, ImageMissing, SaysMissing, SomethingRaised, Issue;
    ImageTransparent(env, m, image, context, deadline);
    var insp := Issue(env, m, deadline, ImageInspect(image), RuntimeUnavailableError);
    if insp.out.Ok? {
      ImageMissingIff(insp.out.value);
      MissingFails(insp.out.value);
      var build := Issue(env, insp.at, deadline, ImageBuild(image), RuntimeUnavailableError);
      assert (insp.events + build.events)[0] == insp.events[0];
      assert |insp.events + build.events| == 2 ==> (insp.events + build.events)[1] == build.events[0];
    }
  }

  lemma MissingFails(reply: Reply)
    ensures SaysMissing(reply) ==> reply.Exited? && reply.code != 0
  {
  }

  /** The subnets of a network that `start` must keep away from: one is malformed, or shares an address with
      the configured block. */
  ghost predicate Collides(lib: Library, target: Network, subnets: seq<string>) {
    exists s :: s in subnets &&
      (lib.network(s).None? || exists x :: Covers(target, x) && Covers(lib.network(s).value, x))
  }

  lemma {:induction false} ClearIff(lib: Library, target: Network, subnets: seq<string>)
    ensures Clear(lib, target, subnets) <==> !Collides(lib, target, subnets)
  {
    hide Overlaps, Covers;
    forall s | s in subnets && lib.network(s).Some?
      ensures Overlaps(target, lib.network(s).value) <==>
              exists x :: Covers(target, x) && Covers(lib.network(s).value, x)
    {
      OverlapIsIntersection(target, lib.network(s).value);
    }
  }

  /** The command showed a network that the configured block collides with. */
  ghost predicate ShowedCollision(lib: Library, target: Network, e: Event) {
    Succeeded(e) && e.cmd.NetworkInspect? && Collides(lib, target, Words(e.reply.out))
  }

  /** An inspection that found nothing to object to. */
  ghost predicate WentWell(lib: Library, target: Network, e: Event) {
    Succeeded(e) && !ShowedCollision(lib, target, e)
  }

  /** The networks are inspected in order. */
  predicate InspectsInOrder(names: seq<string>, es: seq<Event>) {
    |es| <= |names| && forall i :: 0 <= i < |es| ==> es[i].Ran? && es[i].cmd == NetworkInspect(names[i])
  }

  /** How the inspections of so many networks are answered: the first that does not go well is the last. */
  ghost predicate ScanTold(lib: Library, target: Network, n: nat, es: seq<Event>, out: Result<()>) {
    (forall i :: 0 <= i < |es| - 1 ==> WentWell(lib, target, es[i])) &&
    (out == Err(OtherException) <==> SomethingRaised(es)) &&
    (out == Err(LifecycleError) <==> es != [] && ShowedCollision(lib, target, es[|es| - 1])) &&
    (out.Ok? <==> |es| == n && (es != [] ==> WentWell(lib, target, es[|es| - 1]))) &&
    (out.Err? ==> out.error in {RuntimeUnavailableError, LifecycleError, OtherException})
  }

  lemma InspectionTold(lib: Library, env: Script, m: Moment, deadline: real, target: Network, name: string)
    ensures var r := InspectNetwork(lib, env, m, deadline, target, name);
      InspectsInOrder([name], r.events) && ScanTold(lib, target, 1, r.events, r.out)
  {
    hide InTime, Words, CheckSubnets, SomethingRaised, Issue, Clear, Collides;
    InspectionTransparent(lib, env, m, deadline, target, name);
    var one := Issue(env, m, deadline, NetworkInspect(name), RuntimeUnavailableError);
    if one.out.Ok? && one.out.value.Exited? {
      SubnetErrors(lib, target, Words(one.out.value.out));
      SubnetsClear(lib, target, Words(one.out.value.out));
      ClearIff(lib, target, Words(one.out.value.out));
    }
  }

  lemma ScanToldJoined(lib: Library, target: Network, n: nat, e: Event, es: seq<Event>, out: Result<()>)
    requires WentWell(lib, target, e) && !SomethingRaised([e]) && ScanTold(lib, target, n, es, out)
    ensures ScanTold(lib, target, n + 1, [e] + es, out)
  {
    hide SomethingRaised, ShowedCollision, Succeeded;
    RaisedJoined([e], es);
    var all := [e] + es;
    assert es != [] ==> all[|all| - 1] == es[|es| - 1];
  }

  lemma OrderJoined(name: string, tail: seq<string>, e: Event, es: seq<Event>)
    requires InspectsInOrder([name], [e]) && InspectsInOrder(tail, es)
    ensures InspectsInOrder([name] + tail, [e] + es)
  {
    assert [e][0] == e && [name][0] == name;
  }

  lemma {:induction false} ScanNetworksTold(lib: Library, env: Script, m: Moment, deadline: real, target: Network,
                                            own: string, names: seq<string>)
    ensures var (r, others) := (ScanNetworks(lib, env, m, deadline, target, own, names), Others(names, own));
      InspectsInOrder(others, r.events) && ScanTold(lib, target, |others|, r.events, r.out)
    decreases |names|
  {
    hide InTime, InspectNetwork, ScanTold, InspectsInOrder;
    if names == [] {
      NothingScanned(lib, target);
    } else if names[0] == own {
      ScanNetworksTold(lib, env, m, deadline, target, own, names[1..]);
      assert [] + Others(names[1..], own) == Others(names[1..], own);
    } else {
      var one := InspectNetwork(lib, env, m, deadline, target, names[0]);
      InspectionTold(lib, env, m, deadline, target, names[0]);
      var tail := Others(names[1..], own);
      if one.out.Err? {
        StoppedEarly(lib, target, names[0], tail, one.events, one.out);
      } else {
        ScanNetworksTold(lib, env, one.at, deadline, target, own, names[1..]);
        var rest := ScanNetworks(lib, env, one.at, deadline, target, own, names[1..]);
        OneScanned(lib, target, one.events, one.out);
        ScanToldJoined(lib, target, |tail|, one.events[0], rest.events, rest.out);
        OrderJoined(names[0], tail, one.events[0], rest.events);
      }
    }
  }

  lemma NothingScanned(lib: Library, target: Network)
    ensures InspectsInOrder([], []) && ScanTold(lib, target, 0, [], Ok(()))
  {
  }

  lemma StoppedEarly(lib: Library, target: Network, name: string, tail: seq<string>, es: seq<Event>, out: Result<()>)
    requires InspectsInOrder([name], es) && ScanTold(lib, target, 1, es, out) && out.Err?
    ensures InspectsInOrder([name] + tail, es) && ScanTold(lib, target, 1 + |tail|, es, out)
  {
    hide ShowedCollision;
  }

  lemma OneScanned(lib: Library, target: Network, es: seq<Event>, out: Result<()>)
    requires ScanTold(lib, target, 1, es, out) && out.Ok?
    ensures |es| == 1 && es == [es[0]] && WentWell(lib, target, es[0]) && !SomethingRaised([es[0]])
  {
    hide ShowedCollision, SomethingRaised;
  }

  // ----- The collision check -----

  /** The commands of the collision check and how they are answered: a malformed configured block before any. */
  ghost predicate CollisionTold(cfg: Config, node: string, es: seq<Event>, out: Result<()>) {
    var target := cfg.lib.network(cfg.subnet);
    if target.None? then es == [] && out == Err(LifecycleError)
    else if es == [] || !Succeeded(es[0]) then
      |es| <= 1 && (forall e :: e in es ==> e.Ran? && e.cmd == NetworkList) &&
      out == Err(if SomethingRaised(es) then OtherException else RuntimeUnavailableError)
    else
      var others := Others(NetworkNames(es[0].reply.out), ProjectNetwork(node));
      es[0].cmd == NetworkList && InspectsInOrder(others, es[1..]) &&
      ScanTold(cfg.lib, target.value, |others|, es[1..], out)
  }

  lemma CheckCollisionTold(cfg: Config, env: Script, m: Moment, node: string, deadline: real)
    ensures var r := CheckCollision(cfg, env, m, node, deadline);
      CollisionTold(cfg, node, r.events, r.out)
  {
    hide InTime, ScanNetworks, NetworkNames, SomethingRaised, Issue, Others, ScanTold, InspectsInOrder;
    NothingRaised();
    IssueRaises(env, m, deadline, NetworkList, RuntimeUnavailableError);
    var list := Issue(env, m, deadline, NetworkList, RuntimeUnavailableError);
    var target := cfg.lib.network(cfg.subnet);
    if target.Some? && list.out.Ok? && Expect(list.out.value, RuntimeUnavailableError).Ok? {
      var names := NetworkNames(list.out.value.out);
      ScanNetworksTold(cfg.lib, env, list.at, deadline, target.value, ProjectNetwork(node), names);
      var scan := ScanNetworks(cfg.lib, env, list.at, deadline, target.value, ProjectNetwork(node), names);
      assert (list.events + scan.events)[1..] == scan.events && (list.events + scan.events)[0] == list.events[0];
    }
  }

  // ----- start -----

  /** How `up` is answered by the way it ended. */
  function UpTold(reply: Reply): Result<()> {
    match reply
    case Exited(code, _, _) => if code == 0 then Ok(()) else Err(LifecycleError)
    case TimedOut => Err(StartupTimeoutError)
    case OsFailure => Err(RuntimeUnavailableError)
    case Raised => Err(OtherException)
  }

  function Images(es: seq<Event>): nat {
    if es == [] then 0 else (if es[0].Ran? && es[0].cmd.ImageInspect? then 1 else 0) + Images(es[1..])
  }

  lemma {:induction false} ImagesJoined(a: seq<Event>, b: seq<Event>)
    ensures Images(a + b) == Images(a) + Images(b)
  {
    if a == [] {
      assert a + b == b;
    } else {
      ImagesJoined(a[1..], b);
      assert (a + b)[1..] == a[1..] + b;
    }
  }

  lemma {:induction false} NoImages(es: seq<Event>)
    requires forall e :: e in es ==> e.Ran? && !e.cmd.ImageInspect?
    ensures Images(es) == 0
  {
    if es == [] {
    } else {
      assert es[0] in es;
      NoImages(es[1..]);
    }
  }

  /** The last command showed a network in the way of the configured block. */
  ghost predicate EndsInCollision(cfg: Config, es: seq<Event>) {
    var target := cfg.lib.network(cfg.subnet);
    es != [] && target.Some? && ShowedCollision(cfg.lib, target.value, es[|es| - 1])
  }

  predicate EndsWell(es: seq<Event>) { es != [] ==> Succeeded(es[|es| - 1]) }

  predicate EndsInUp(es: seq<Event>) { es != [] && IsUp(es[|es| - 1]) }

  /** What the commands of `start` tell, so many images before its end: a documented `StartupTimeoutError` comes
      of `up`, or of a deadline that expired between the last image and `up`. */
  ghost function StartTold(cfg: Config, images: nat, es: seq<Event>): Result<()> {
    if SomethingRaised(es) then Err(OtherException)
    else if EndsInUp(es) then UpTold(es[|es| - 1].reply)
    else if EndsInCollision(cfg, es) then Err(LifecycleError)
    else if Images(es) == images && EndsWell(es) then Err(StartupTimeoutError)
    else Err(RuntimeUnavailableError)
  }

  /** A step that went well. */
  ghost predicate WentOn(cfg: Config, images: nat, es: seq<Event>) {
    es != [] && EndsWell(es) && !SomethingRaised(es) && !EndsInUp(es) && !EndsInCollision(cfg, es) &&
    Images(es) == images
  }

  lemma ToldLater(cfg: Config, images: nat, more: nat, a: seq<Event>, b: seq<Event>)
    requires WentOn(cfg, more, a)
    ensures StartTold(cfg, images + more, a + b) == StartTold(cfg, images, b)
  {
    hide SomethingRaised, Images, Succeeded, IsUp, ShowedCollision;
    RaisedJoined(a, b);
    ImagesJoined(a, b);
    if b == [] {
      assert a + b == a;
      assert Images([]) == 0 by { NoImages([]); }
      NothingRaised();
    } else {
      assert (a + b)[|a + b| - 1] == b[|b| - 1];
    }
  }

  /** How many images are still to be seen to before each step. */
  function ImagesFrom(k: nat): nat { if k <= 2 then 2 else if k == 3 then 1 else 0 }

  /** A step went on to the next one, or ended the whole call with what its commands tell. */
  ghost predicate StepTold(cfg: Config, k: nat, es: seq<Event>, out: Result<()>) {
    if out.Ok? then WentOn(cfg, if k < 2 then 0 else 1, es) else out == StartTold(cfg, ImagesFrom(k), es)
  }

  /** The commands that a start may run. */
  predicate IsStarting(node: string, c: Cmd) {
    c.DockerInfo? || c.NetworkList? || c.NetworkInspect? || c.ImageInspect? || c.ImageBuild? || c == ComposeUp(node)
  }

  predicate OnlyStarts(node: string, es: seq<Event>) {
    forall e :: e in es ==> e.Ran? && IsStarting(node, e.cmd)
  }

  lemma ImageStep(cfg: Config, k: nat, image: string, context: BuildContext, node: string, r: Run<(), Event>)
    requires 2 <= k < 4 && ImageTold(image, context, r.events, r.out)
    ensures StepTold(cfg, k, r.events, r.out) && OnlyStarts(node, r.events)
  {
    hide SaysMissing, SomethingRaised;
    var es := r.events;
    if es != [] {
      assert Images(es) == 1 by {
        assert es[1..] == [] || es[1..] == [es[1]];
        assert es[0] in es;
        assert |es| == 2 ==> es[1] in es;
        NoImages(es[1..]);
      }
      assert es[|es| - 1] in es;
    }
  }

  lemma RuntimeStep(cfg: Config, env: Script, m: Moment, node: string, deadline: real)
    ensures var r := CheckRuntime(env, m, deadline);
      StepTold(cfg, 0, r.events, r.out) && OnlyStarts(node, r.events)
  {
    hide CheckRuntime, SomethingRaised;
    RuntimeShape(env, m, deadline);
    RuntimeRaises(env, m, deadline);
    var es := CheckRuntime(env, m, deadline).events;
    NoImages(es);
    assert |es| == 1 ==> es[0] in es;
  }

  lemma AloneRaised(e: Event)
    ensures SomethingRaised([e]) <==> e.Ran? && e.reply.Raised?
  {
    assert e in [e];
  }

  lemma CollisionStep(cfg: Config, node: string, es: seq<Event>, out: Result<()>)
    requires CollisionTold(cfg, node, es, out) && cfg.lib.network(cfg.subnet).Some?
    ensures StepTold(cfg, 1, es, out) && OnlyStarts(node, es)
  {
    hide SomethingRaised, Collides, Others, NetworkNames, Words;
    if es != [] {
      assert es == [es[0]] + es[1..];
      RaisedJoined([es[0]], es[1..]);
      assert Succeeded(es[0]) ==> !SomethingRaised([es[0]]) by { AloneRaised(es[0]); }
      assert |es| > 1 ==> es[1..][|es| - 2] == es[|es| - 1];
    }
    forall e | e in es ensures e.Ran? && !e.cmd.ImageInspect? && IsStarting(node, e.cmd) && !e.cmd.ComposeUp? {
      var i :| 0 <= i < |es| && es[i] == e;
      assert i > 0 ==> es[1..][i - 1] == e;
    }
    NoImages(es);
    assert es != [] ==> es[|es| - 1] in es;
  }

  lemma StepToldBy(k: nat, cfg: Config, env: Script, m: Moment, node: string, deadline: real)
    requires k < 4 && cfg.lib.network(cfg.subnet).Some?
    ensures var r := StartStep(k, cfg, env, m, node, deadline);
      StepTold(cfg, k, r.events, r.out) && OnlyStarts(node, r.events)
  {
    hide CheckRuntime, CheckCollision, EnsureImage, StepTold, OnlyStarts, CollisionTold, ImageTold;
    var r := StartStep(k, cfg, env, m, node, deadline);
    match k
    case 0 => RuntimeStep(cfg, env, m, node, deadline);
    case 1 =>
      CheckCollisionTold(cfg, env, m, node, deadline);
      CollisionStep(cfg, node, r.events, r.out);
    case 2 =>
      EnsureImageTold(env, m, cfg.bitcoinImage, cfg.bitcoinContext, deadline);
      ImageStep(cfg, k, cfg.bitcoinImage, cfg.bitcoinContext, node, r);
    case _ =>
      EnsureImageTold(env, m, cfg.bitheimImage, cfg.bitheimContext, deadline);
      ImageStep(cfg, k, cfg.bitheimImage, cfg.bitheimContext, node, r);
  }

  lemma UpStep(cfg: Config, env: Script, m: Moment, node: string, deadline: real)
    ensures var r := Up(env, m, node, deadline);
      r.out == StartTold(cfg, 0, r.events) && OnlyStarts(node, r.events)
  {
    hide InTime, SomethingRaised, Issue;
    NothingRaised();
    UpTransparent(env, m, node, deadline);
    var up := Issue(env, m, deadline, ComposeUp(node), StartupTimeoutError);
  }

  lemma {:induction false} StartFromTold(k: nat, cfg: Config, env: Script, m: Moment, node: string, deadline: real)
    requires k <= 4 && cfg.lib.network(cfg.subnet).Some?
    ensures var r := StartFrom(k, cfg, env, m, node, deadline);
      r.out == StartTold(cfg, ImagesFrom(k), r.events) && OnlyStarts(node, r.events)
    decreases 4 - k
  {
    hide StartStep, Up, StartTold, WentOn;
    if k == 4 {
      UpStep(cfg, env, m, node, deadline);
    } else {
      var step := StartStep(k, cfg, env, m, node, deadline);
      StepToldBy(k, cfg, env, m, node, deadline);
      if step.out.Ok? {
        StartFromTold(k + 1, cfg, env, step.at, node, deadline);
        var rest := StartFrom(k + 1, cfg, env, step.at, node, deadline);
        ToldLater(cfg, ImagesFrom(k + 1), if k < 2 then 0 else 1, step.events, rest.events);
      }
    }
  }

  lemma MalformedCheck(cfg: Config, env: Script, m: Moment, node: string, deadline: real)
    requires cfg.lib.network(cfg.subnet).None?
    ensures StartFrom(1, cfg, env, m, node, deadline) == Run(Err(LifecycleError), m, [])
  {
    hide InTime;
  }

  lemma MalformedTold(cfg: Config, env: Script, t: Moment, node: string, deadline: real)
    requires cfg.lib.network(cfg.subnet).None?
    ensures var r := StartFrom(0, cfg, env, t, node, deadline);
      OnlyStarts(node, r.events) &&
      if |r.events| == 1 && LiveDaemon(r.events[0]) then r.out == Err(LifecycleError)
      else r.out == Err(if SomethingRaised(r.events) then OtherException else RuntimeUnavailableError)
  {
    hide CheckRuntime, SomethingRaised, InTime;
    RuntimeShape(env, t, deadline);
    RuntimeRaises(env, t, deadline);
    var rt := CheckRuntime(env, t, deadline);
    assert StartStep(0, cfg, env, t, node, deadline) == rt;
    MalformedCheck(cfg, env, rt.at, node, deadline);
    assert rt.events + [] == rt.events;
  }

  /** Every run of `start`: the answer is the one that its commands tell. With a malformed configured block it
      ends at a live daemon. */
  lemma StartToldBy(cfg: Config, env: Script, m: Moment, node: string, timeout: real)
    ensures var r := Start(cfg, env, m, node, timeout);
      OnlyStarts(node, r.events) &&
      if cfg.lib.network(cfg.subnet).Some? then r.out == StartTold(cfg, 2, r.events)
      else if |r.events| == 1 && LiveDaemon(r.events[0]) then r.out == Err(LifecycleError)
      else r.out == Err(if SomethingRaised(r.events) then OtherException else RuntimeUnavailableError)
  {
    hide StartTold, SomethingRaised;
    var t := Read(env, m);
    if cfg.lib.network(cfg.subnet).Some? {
      hide StartFrom;
      StartFromTold(0, cfg, env, t, node, t.now + timeout);
    } else {
      hide StartFrom, OnlyStarts, LiveDaemon;
      MalformedTold(cfg, env, t, node, t.now + timeout);
    }
  }
}
