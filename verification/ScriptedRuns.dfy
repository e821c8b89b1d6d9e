/** Runs of scripts that are known for the next few steps: what the deviations are shown with. */
module ScriptedRuns {
  import opened Outcome
  import opened Text
  import opened Domain
  import opened Process
  import opened Runs
  import opened World
  import opened Health
  import opened Containers
  import opened AdapterSpec
  import opened AdapterSafety

  lemma OneLetter()
    ensures Strip("x") == "x" && SplitLines("x") == ["x"] && !StartsWith("x", "[")
  {
    hide Strip, SplitLines;
    StripTight("x");
    OneLine("x");
  }

  lemma UnreadableOutput(lib: Library)
    requires lib.loads("x") == None
    ensures PsState(lib.loads, "x") == UNKNOWN && HostHealth(lib, "x").state == UNKNOWN
  {
    hide Strip, LStrip, RStrip, SplitLines, StartsWith;
    OneLetter();
  }

  /** A state check whose `ps` prints "x". */
  lemma UnreadableState(cfg: Config, env: Script, m: Moment, node: string, deadline: real)
    requires cfg.lib.loads("x") == None && m.now < deadline && Instant(env) && env(m.step).found
    requires env(m.step + 2).lasts == 0.0 && env(m.step + 2).reply == Exited(0, "", "")
    requires env(m.step + 4).lasts <= deadline - m.now && env(m.step + 4).reply == Exited(0, "x", "")
    ensures var r := StateBy(cfg, env, m, node, deadline);
      r.out == Ok(UNKNOWN) && r.at == Moment(m.now + env(m.step + 4).lasts, m.step + 5) && Honoured(r.events)
  {
    hide InTime, PsState, Honoured, Issue, CheckRuntime, Succeeded;
    UnreadableOutput(cfg.lib);
    LiveRuntime(env, m, deadline);
    var rt := CheckRuntime(env, m, deadline);
    Dispatched(env, rt.at, deadline, ComposePs(node), RuntimeUnavailableError);
    var ps := Issue(env, rt.at, deadline, ComposePs(node), RuntimeUnavailableError);
    HonouredParts(rt.events, ps.events);
    assert PsOutcome(cfg.lib, ps.out.value) == Ok(UNKNOWN);
  }
}
