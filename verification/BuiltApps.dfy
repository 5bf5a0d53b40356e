/** The Apps that Build returns, as the lifecycle finds them. */
module BuiltApps {
  import B = Build
  import L = Lifecycle
  import LifecycleRuns

  /** The resources that depend on the configuration, and that the teardown asks for before it closes them. */
  const OPTIONAL: set<nat> := {
    L.LOCAL_LIMITER, L.SHARED_LIMITER, L.RULES_NOTIFIER, L.LIFETIMES_NOTIFIER, L.SUBSCRIBER, L.LOGIN_THROTTLE,
    L.PPROF, L.CACHE
  }

  /** What an App has, by what its builder was told and the optional resources it was configured with. */
  function ConfigOf(b: B.Builder, mirrors: set<nat>, optional: set<nat>, profiles: nat): L.Config {
    L.Config(
      mirrors,
      {L.STOP_HTTP, L.AWAIT_HTTP, L.CHANNEL} + optional * OPTIONAL
        + (if b.database != B.Skipped then {L.DATABASE} else {})
        + (if b.mail != B.Skipped then {L.MAIL} else {})
        + (if b.telemetry != B.Skipped then {L.TELEMETRY} else {}),
      profiles)
  }

  /** A built App has what the teardown closes without asking. */
  lemma BuiltAppHasBoth(
    b: B.Builder, world: B.World, log: seq<B.Action>, mirrors: set<nat>, optional: set<nat>, profiles: nat)
    requires B.IsAnswer(b, world, B.Built, log)
    ensures var cfg := ConfigOf(b, mirrors, optional, profiles);
      L.DATABASE in cfg.present && L.TELEMETRY in cfg.present
  {
    B.BuiltHasBoth(b, world, B.Built, log);
  }

  /**
   * So nothing its process does, in any state, brings it down but a server that
   * fails to drain, or a mail service that was skipped.
   */
  lemma BuiltAppEndsOnlyDraining(
    b: B.Builder, world: B.World, log: seq<B.Action>, mirrors: set<nat>, optional: set<nat>, profiles: nat,
    s: L.State, e: L.Event)
    requires B.IsAnswer(b, world, B.Built, log) && b.mail != B.Skipped && L.Enabled(s, e)
    ensures L.Apply(ConfigOf(b, mirrors, optional, profiles), s, e).crashed <==> e == L.ByServer(L.DrainFails)
  {
    BuiltAppHasBoth(b, world, log, mirrors, optional, profiles);
    var cfg := ConfigOf(b, mirrors, optional, profiles);
    assert L.MAIL in cfg.present;
    match e
    case ByRun(ok) => RunKeepsUp(cfg, s, ok);
    case TearDown(c, read) => TearDownKeepsUp(cfg, s, read);
    case ByServer(what) => ServerKeepsUp(cfg, s, what);
    case _ =>
  }

  lemma RunKeepsUp(cfg: L.Config, s: L.State, ok: bool)
    requires L.MAIL in cfg.present
    ensures L.RunMove(cfg, s, ok).crashed == s.crashed
  {
  }

  lemma TearDownKeepsUp(cfg: L.Config, s: L.State, read: bool)
    requires L.DATABASE in cfg.present && L.TELEMETRY in cfg.present && L.MAIL in cfg.present
    ensures L.TearDownMove(cfg, s, read).crashed == s.crashed
  {
  }

  lemma ServerKeepsUp(cfg: L.Config, s: L.State, what: L.ServerEvent)
    ensures L.ServerMove(cfg, s, what).crashed == (s.crashed || what == L.DrainFails)
  {
  }

  /** The states that break the promises of a teardown are states of Apps that Build returns. */
  lemma BuiltAppServesAfterTeardown(
    b: B.Builder, world: B.World, log: seq<B.Action>, mirrors: set<nat>, optional: set<nat>, profiles: nat,
    callers: nat) returns (s: L.State)
    requires B.IsAnswer(b, world, B.Built, log)
    ensures var cfg := ConfigOf(b, mirrors, optional, profiles);
      && L.Reachable(cfg, callers, s) && s.calls == L.Start(cfg, callers).calls[0 := L.Returned]
      && s.run == L.Ended(false) && s.server.listener == L.Listening && L.DATABASE in L.Torn(s.log)
  {
    BuiltAppHasBoth(b, world, log, mirrors, optional, profiles);
    s := LifecycleRuns.UnheardStopServesOn(ConfigOf(b, mirrors, optional, profiles), callers);
  }
}
