/** What holds of every run of the process, and the runs that show where a promise stops. */
module LifecycleRuns {
  import opened Lifecycle

  // -------------------------------------------------------------------- safety

  /** The server is started, and so can be listening, only after every enabled mirror loaded, in order. */
  lemma ServingImpliesLoaded(cfg: Config, callers: nat, s: State)
    requires Reachable(cfg, callers, s)
    ensures forall j :: SpawnedAt(s.log, j) ==> Loads(s.log[..j]) == Below(cfg.enabled, MIRRORS)
    ensures s.server.listener == Listening ==> Spawned in s.log
    ensures s.server.listener == Listening ==> forall m: nat | m < MIRRORS && m in cfg.enabled :: m in Loads(s.log)
  {
    ReachableInv(cfg, callers, s);
    BelowIs(cfg.enabled, MIRRORS);
  }

  /** Those of a list that a process has. */
  function Had(xs: set<nat>, list: seq<nat>): seq<nat> {
    if list == [] then []
    else Had(xs, list[..|list| - 1]) + if list[|list| - 1] in xs then [list[|list| - 1]] else []
  }

  lemma {:induction false} HadAll(xs: set<nat>, n: nat, list: seq<nat>)
    requires |list| == n && forall i | 0 <= i < n :: list[i] == i
    ensures Had(xs, list) == Below(xs, n)
  {
    if n > 0 {
      HadAll(xs, n - 1, list[..n - 1]);
    }
  }

  lemma {:induction false} HadSplit(xs: set<nat>, a: seq<nat>, b: seq<nat>)
    ensures Had(xs, a + b) == Had(xs, a) + Had(xs, b)
    decreases |b|
  {
    if b == [] {
      assert a + b == a;
    } else {
      assert (a + b)[..|a + b| - 1] == a + b[..|b| - 1];
      HadSplit(xs, a, b[..|b| - 1]);
    }
  }

  /** By name: the denylist of access tokens is loaded first, then the rate-limit rules, then the token lifetimes. */
  lemma LoadedByName(cfg: Config, callers: nat, s: State)
    requires Reachable(cfg, callers, s)
    ensures Loads(s.log) <= Had(cfg.enabled, [DENYLIST, RULES, LIFETIMES])
    ensures Spawned in s.log ==> Loads(s.log) == Had(cfg.enabled, [DENYLIST, RULES, LIFETIMES])
  {
    ReachableInv(cfg, callers, s);
    var all := [DENYLIST, RULES, LIFETIMES];
    HadAll(cfg.enabled, s.mirror, all[..s.mirror]);
    HadSplit(cfg.enabled, all[..s.mirror], all[s.mirror..]);
    assert all == all[..s.mirror] + all[s.mirror..];
    assert s.mirror == MIRRORS ==> all[..s.mirror] == all;
  }

  /** What the teardown body stops and closes, by name, in the order it does. */
  function Body(): seq<nat> {
    [STOP_HTTP, AWAIT_HTTP, LOCAL_LIMITER, SHARED_LIMITER, RULES_NOTIFIER, LIFETIMES_NOTIFIER, SUBSCRIBER,
     LOGIN_THROTTLE, PPROF, CACHE, DATABASE, MAIL, TELEMETRY, CHANNEL]
  }

  /**
   * By name: what has been torn down is always the beginning of that list, less
   * what this process does not have, and once a Shutdown returned the whole of
   * it; so mail stops before the telemetry it reports to, and both after the
   * database.
   */
  lemma TeardownByName(cfg: Config, callers: nat, s: State)
    requires Reachable(cfg, callers, s)
    ensures Torn(s.log) <= Had(cfg.present, Body())
    ensures forall c: nat | In(s, c, Returned) :: Torn(s.log) == Had(cfg.present, Body())
  {
    ReachableInv(cfg, callers, s);
    HadAll(cfg.present, s.step, Body()[..s.step]);
    HadSplit(cfg.present, Body()[..s.step], Body()[s.step..]);
    assert Body() == Body()[..s.step] + Body()[s.step..];
    assert s.step == STEPS ==> Body()[..s.step] == Body();
  }

  /** What is closed between the wait for the server and the cache. */
  function BetweenWaitAndCache(): set<nat> {
    {LOCAL_LIMITER, SHARED_LIMITER, RULES_NOTIFIER, LIFETIMES_NOTIFIER, SUBSCRIBER, LOGIN_THROTTLE, PPROF}
  }

  /**
   * What depends on what: the telemetry is shut down after everything it could
   * record, mail after the database, and nothing that serves a request, the cache
   * included, is closed before the wait for the server is over.
   */
  lemma TeardownDepends(cfg: Config, callers: nat, s: State, k: nat)
    requires Reachable(cfg, callers, s) && k in cfg.present
    ensures CHANNEL in Torn(s.log) && k in Body() ==> k in Torn(s.log)
    ensures TELEMETRY in Torn(s.log) && k in Body() && k != CHANNEL ==> k in Torn(s.log)
    ensures MAIL in Torn(s.log) && k == DATABASE ==> k in Torn(s.log)
    ensures CACHE in Torn(s.log) && k in BetweenWaitAndCache() ==> k in Torn(s.log)
    ensures k in Torn(s.log) && AWAIT_HTTP in cfg.present ==> k == STOP_HTTP || AWAIT_HTTP in Torn(s.log)
  {
    ReachableInv(cfg, callers, s);
    BelowIs(cfg.present, s.step);
  }

  /**
   * Run returns an error exactly when a first load failed and no cancellation
   * came before it was judged; and then this process has served nothing.
   */
  lemma RunFailsIff(cfg: Config, callers: nat, s: State)
    requires Reachable(cfg, callers, s) && s.run.Ended?
    ensures s.run.failed <==> exists j ::
      JudgedAt(s.log, j) && Cancelled !in s.log[..j] && Refused(s.log[j].mirror) in s.log[..j]
    ensures WasJudged(s) ==> Spawned !in s.log && s.server.listener == Unbound
  {
    ReachableInv(cfg, callers, s);
    if s.run.failed {
      var j :| JudgedAt(s.log, j);
      assert Cancelled !in s.log[..j];
    }
  }

  /**
   * Whoever calls Shutdown, and however often, the body's steps are taken at
   * most once each and in order; the channel is closed after all of them; and
   * no caller returns before that.
   */
  lemma TeardownOnceInOrder(cfg: Config, callers: nat, s: State)
    requires Reachable(cfg, callers, s)
    ensures forall i, j | 0 <= i < j < |Torn(s.log)| :: Torn(s.log)[i] < Torn(s.log)[j]
    ensures forall k, l: nat | k < l && k in cfg.present && l in Torn(s.log) :: k in Torn(s.log)
    ensures forall c: nat | In(s, c, Returned) ::
      forall k: nat :: k in Torn(s.log) <==> k < STEPS && k in cfg.present
  {
    ReachableInv(cfg, callers, s);
    BelowIs(cfg.present, s.step);
  }

  /**
   * The body closes the database and the telemetry without asking, so in an App
   * put together without either no Shutdown ever returns.  Build returns none.
   */
  lemma ShutdownNeedsBoth(cfg: Config, callers: nat, s: State, c: nat)
    requires Reachable(cfg, callers, s) && In(s, c, Returned)
    ensures DATABASE in cfg.present && TELEMETRY in cfg.present
  {
    ReachableInv(cfg, callers, s);
  }

  /** Once the wait for the server has ended other than by the ten seconds, nothing is ever served again. */
  lemma DrainedBeforeClosed(cfg: Config, callers: nat, s: State)
    requires Reachable(cfg, callers, s) && s.server.listener == Listening && s.step > AWAIT_HTTP
    ensures s.timedOut
  {
    ReachableInv(cfg, callers, s);
  }

  /** The cache is closed only once the server is down or its time is over, and before the database. */
  lemma CacheClosedBetween(cfg: Config, callers: nat, s: State)
    requires Reachable(cfg, callers, s) && CACHE in cfg.present
    ensures CACHE in Torn(s.log) ==> s.timedOut || s.server.listener != Listening
    ensures DATABASE in Torn(s.log) ==> CACHE in Torn(s.log)
  {
    ReachableInv(cfg, callers, s);
    BelowIs(cfg.present, s.step);
  }

  /** Short of a failure to bind, the server drains exactly when the order to stop found its goroutine waiting. */
  lemma StopHeardIff(cfg: Config, callers: nat, s: State)
    requires Reachable(cfg, callers, s) && s.step > STOP_HTTP && s.server.listener != Reported
    ensures s.heard <==> s.server.monitor == Draining || s.server.monitor == Shut
    ensures !s.heard && s.step > AWAIT_HTTP ==> s.timedOut
  {
    ReachableInv(cfg, callers, s);
  }

  /** The telemetry is shut down twice exactly when a failed load ended Run and the body got that far too. */
  lemma TelemetryTwiceIff(cfg: Config, callers: nat, s: State)
    requires Reachable(cfg, callers, s) && TELEMETRY in cfg.present
    ensures Shutdowns(s.log) <= 2
    ensures Shutdowns(s.log) == 2 <==> WasJudged(s) && TELEMETRY in Torn(s.log)
    ensures Shutdowns(s.log) == 0 <==> !WasJudged(s) && TELEMETRY !in Torn(s.log)
  {
    ReachableInv(cfg, callers, s);
    BelowIs(cfg.present, s.step);
  }

  // ------------------------------------------------------------------ the log grows

  lemma LogGrowsOnce(cfg: Config, s: State, e: Event)
    requires Enabled(s, e)
    ensures s.log <= Apply(cfg, s, e).log
  {
    if e.ByRun? {
      RunAddsToLog(cfg, s, e.ok);
    } else {
      var more := OthersAdd(cfg, s, e);
    }
  }

  lemma {:induction false} LogGrows(cfg: Config, s: State, run: seq<Event>)
    requires Runs(cfg, s, run)
    ensures s.log <= Exec(cfg, s, run).log
    decreases |run|
  {
    if run != [] {
      LogGrowsOnce(cfg, s, run[0]);
      LogGrows(cfg, Apply(cfg, s, run[0]), run[1..]);
    }
  }

  predicate DidAt(log: seq<Action>, j: int) {
    0 <= j < |log| && log[j].Did?
  }

  lemma {:induction false} TornIff(log: seq<Action>)
    ensures Torn(log) == [] <==> forall j :: !DidAt(log, j)
    decreases |log|
  {
    if log != [] {
      var init := log[..|log| - 1];
      TornIff(init);
      assert forall j :: DidAt(init, j) <==> DidAt(log, j) && j < |log| - 1;
      assert log[|log| - 1].Did? ==> DidAt(log, |log| - 1);
    }
  }

  /** The server is started before anything is torn down exactly when the body had not begun at that moment. */
  lemma SpawnedFirstIff(cfg: Config, s: State, ok: bool, run: seq<Event>)
    requires Inv(cfg, s) && STOP_HTTP in cfg.present && Enabled(s, ByRun(ok)) && s.run == Starting
    requires MAIL in cfg.present || ok
    requires Runs(cfg, Apply(cfg, s, ByRun(ok)), run)
    ensures var log := Exec(cfg, Apply(cfg, s, ByRun(ok)), run).log;
      && SpawnedAt(log, |s.log|)
      && ((forall j :: DidAt(log, j) ==> j > |s.log|) <==> s.step == 0)
  {
    var t := Apply(cfg, s, ByRun(ok));
    var log := Exec(cfg, t, run).log;
    LogGrows(cfg, t, run);
    TornIff(s.log);
    BelowIs(cfg.present, s.step);
    assert t.log == s.log + [Spawned];
    assert forall j :: DidAt(s.log, j) <==> DidAt(log, j) && j < |s.log|;
  }

  // --------------------------------------------------------------- termination

  function RunRank(s: State): int {
    match s.run
    case Loading => 4 + MIRRORS - s.mirror
    case Starting => 4
    case Waiting => 3
    case Stopping => 2
    case Failing => 1
    case Ended(_) => 0
  }

  function CallRank(c: Call): nat {
    match c
    case Idle => 3
    case Entering => 2
    case Running => 1
    case Returned => 0
  }

  function CallsRank(calls: seq<Call>): nat {
    if calls == [] then 0 else CallRank(calls[0]) + CallsRank(calls[1..])
  }

  function ServerRank(v: Server): nat {
    var m := match v.monitor case Absent => 3 case Parked => 2 case Draining => 1 case Shut => 0;
    var l := match v.listener case Unbound => 3 case Failed => 2 case Listening => 1 case Reported => 0 case Closed => 0;
    m + l
  }

  function OthersRank(s: State): int {
    (if s.ctxDone then 0 else 1) + (STEPS - s.step) + ServerRank(s.server)
      + 2 * s.pprof.left + (if s.pprof.busy then 1 else 0) + if s.crashed then 0 else 1
  }

  /** How many more steps the process can take. */
  function StepsLeft(s: State): int {
    RunRank(s) + CallsRank(s.calls) + OthersRank(s)
  }

  lemma {:induction false} CallsRankReplaced(calls: seq<Call>, c: nat, k: Call)
    requires c < |calls|
    ensures CallsRank(calls[c := k]) == CallsRank(calls) - CallRank(calls[c]) + CallRank(k)
  {
    var moved := calls[c := k];
    if c == 0 {
      assert moved[1..] == calls[1..];
    } else {
      assert moved[1..] == calls[1..][c - 1 := k];
      CallsRankReplaced(calls[1..], c - 1, k);
    }
  }

  lemma RunMoveRanks(cfg: Config, s: State, ok: bool)
    requires RunInv(s) && RunMay(s)
    requires !s.crashed
    ensures RunRank(RunMove(cfg, s, ok)) + OthersRank(RunMove(cfg, s, ok)) < RunRank(s) + OthersRank(s)
    ensures RunMove(cfg, s, ok).calls == if s.run == Waiting then s.calls[0 := Entering] else s.calls
  {
    RunKeepsOthers(cfg, s, ok);
  }

  lemma RunKeepsOthers(cfg: Config, s: State, ok: bool)
    requires RunInv(s) && RunMay(s) && !s.crashed
    ensures var t := RunMove(cfg, s, ok);
      && t.ctxDone == s.ctxDone && t.step == s.step && t.pprof == s.pprof
      && ServerRank(t.server) == ServerRank(s.server)
      && (t.crashed ==> t.run == s.run && t.mirror == s.mirror)
  {
  }

  lemma TearDownRanks(cfg: Config, s: State, read: bool)
    requires TearDownMay(s, read) && !s.crashed
    ensures var t := TearDownMove(cfg, s, read);
      t.calls == s.calls && RunRank(t) == RunRank(s) && OthersRank(t) < OthersRank(s)
  {
  }

  lemma ReportRanks(cfg: Config, s: State, toMonitor: bool)
    requires s.server.listener == Failed && !s.crashed
    ensures var t := ReportMove(cfg, s, toMonitor);
      t.calls == s.calls && RunRank(t) == RunRank(s) && OthersRank(t) < OthersRank(s)
  {
  }

  lemma ServerMoveRanks(cfg: Config, s: State, e: ServerEvent)
    requires ServerMay(s.server, e) && !s.crashed
    ensures var t := ServerMove(cfg, s, e);
      t.calls == s.calls && RunRank(t) == RunRank(s) && OthersRank(t) < OthersRank(s)
  {
    if e.Reports? {
      ReportRanks(cfg, s, e.toMonitor);
    }
  }

  lemma CallRanks(s: State, t: State, c: nat, k: Call)
    requires c < |s.calls| && t.calls == s.calls[c := k] && CallRank(k) < CallRank(s.calls[c])
    requires RunRank(t) == RunRank(s) && OthersRank(t) == OthersRank(s)
    ensures StepsLeft(t) < StepsLeft(s)
  {
    CallsRankReplaced(s.calls, c, k);
  }

  lemma RunRanks(cfg: Config, s: State, ok: bool)
    requires RunInv(s) && RunMay(s) && !s.crashed
    ensures StepsLeft(RunMove(cfg, s, ok)) < StepsLeft(s)
  {
    RunMoveRanks(cfg, s, ok);
    CallsRankReplaced(s.calls, 0, Entering);
  }

  lemma CallerRanks(cfg: Config, s: State, e: Event)
    requires Enabled(s, e) && (e.CallShutdown? || e.Enter? || e.Leave?)
    ensures StepsLeft(Apply(cfg, s, e)) < StepsLeft(s)
  {
    match e
    case CallShutdown(c) => CallRanks(s, Apply(cfg, s, e), c, Entering);
    case Enter(c) => CallRanks(s, Apply(cfg, s, e), c, if s.once == Unused then Running else Returned);
    case Leave(c) => CallRanks(s, Apply(cfg, s, e), c, Returned);
  }

  lemma OutsideRanks(cfg: Config, s: State, e: Event)
    requires Enabled(s, e) && (e.Cancel? || e.ByProfile?)
    ensures StepsLeft(Apply(cfg, s, e)) < StepsLeft(s)
  {
  }

  lemma EveryStepCounts(cfg: Config, s: State, e: Event)
    requires RunInv(s) && Enabled(s, e)
    ensures StepsLeft(Apply(cfg, s, e)) < StepsLeft(s)
  {
    match e
    case ByRun(ok) => RunRanks(cfg, s, ok);
    case TearDown(c, read) => TearDownRanks(cfg, s, read);
    case ByServer(what) => ServerMoveRanks(cfg, s, what);
    case Cancel => OutsideRanks(cfg, s, e);
    case ByProfile(_) => OutsideRanks(cfg, s, e);
    case _ => CallerRanks(cfg, s, e);
  }

  lemma {:induction false} RunsAreBounded(cfg: Config, s: State, run: seq<Event>)
    requires Inv(cfg, s) && Runs(cfg, s, run)
    ensures |run| <= StepsLeft(s)
    decreases |run|
  {
    if run != [] {
      EveryStepCounts(cfg, s, run[0]);
      InvKept(cfg, s, run[0]);
      RunsAreBounded(cfg, Apply(cfg, s, run[0]), run[1..]);
    } else {
      assert s.step <= STEPS;
    }
  }

  lemma {:induction false} IdleRank(calls: seq<Call>)
    requires forall c | 0 <= c < |calls| :: calls[c] == Idle
    ensures CallsRank(calls) == 3 * |calls|
  {
    if calls != [] {
      IdleRank(calls[1..]);
    }
  }

  /** Every run ends: with n other callers and p profiles, within 3n + 2p + 32 steps, whatever the schedule. */
  lemma EveryRunEnds(cfg: Config, callers: nat, run: seq<Event>)
    requires Runs(cfg, Start(cfg, callers), run)
    ensures |run| <= 3 * callers + 2 * cfg.profiles + 32
  {
    InvAtStart(cfg, callers);
    RunsAreBounded(cfg, Start(cfg, callers), run);
    IdleRank(Start(cfg, callers).calls);
  }

  /** Nothing can move but from outside: a new caller of Shutdown, a signal, or a client of pprof. */
  ghost predicate AtRest(s: State) {
    forall e :: Enabled(s, e) ==> e.CallShutdown? || e.Cancel? || e.ByProfile?
  }

  /** The body has called pprof's Shutdown, and a client is still taking a profile. */
  predicate HeldByProfile(s: State) {
    s.once == Busy && s.step == PPROF && s.pprof.busy
  }

  /** Whoever runs the body can take its next step. */
  lemma BodyMoves(s: State)
    requires OnceInv(s) && !s.crashed
    ensures s.once == Busy && !HeldByProfile(s) ==>
      exists e :: Enabled(s, e) && !e.CallShutdown? && !e.Cancel? && !e.ByProfile?
  {
    if s.once == Busy && !HeldByProfile(s) {
      var c: nat :| In(s, c, Running);
      if s.step < STEPS {
        assert Enabled(s, TearDown(c, false));
      } else {
        assert Enabled(s, Leave(c));
      }
    }
  }

  /**
   * The process cannot deadlock: it rests only when Run has returned, while
   * serving with no stop asked for, or while pprof's Shutdown waits for a client;
   * and but for that no caller of Shutdown is left inside.
   */
  lemma RestsOnlyServingOrEnded(cfg: Config, callers: nat, s: State)
    requires Reachable(cfg, callers, s) && !s.crashed && AtRest(s)
    ensures HeldByProfile(s) || s.run.Ended? || (s.run == Waiting && !s.ctxDone && s.once == Unused)
    ensures HeldByProfile(s) || forall c: nat :: !In(s, c, Entering) && !In(s, c, Running)
  {
    ReachableInv(cfg, callers, s);
    BodyMoves(s);
    if !HeldByProfile(s) {
      assert forall c: nat :: In(s, c, Entering) ==> Enabled(s, Enter(c));
      assert forall c: nat :: In(s, c, Running) ==> s.once == Busy;
      assert s.once != Unused ==> ChannelClosed(s);
      assert RunMay(s) ==> Enabled(s, ByRun(true));
      assert s.run == Stopping ==> In(s, 0, s.calls[0]);
    }
  }

  /** And there it stays, with every caller of Shutdown, for as long as the client does: no time limit applies. */
  lemma {:induction false} HeldUntilProfileEnds(cfg: Config, s: State, run: seq<Event>)
    requires Inv(cfg, s) && HeldByProfile(s) && Runs(cfg, s, run) && ByProfile(false) !in run
    ensures HeldByProfile(Exec(cfg, s, run))
    ensures forall c: nat :: !In(Exec(cfg, s, run), c, Returned)
    decreases |run|
  {
    if run != [] {
      InvKept(cfg, s, run[0]);
      StaysHeld(cfg, s, run[0]);
      HeldUntilProfileEnds(cfg, Apply(cfg, s, run[0]), run[1..]);
    }
  }

  lemma StaysHeld(cfg: Config, s: State, e: Event)
    requires Inv(cfg, s) && HeldByProfile(s) && Enabled(s, e) && e != ByProfile(false)
    ensures HeldByProfile(Apply(cfg, s, e))
  {
    if e.ByRun? {
      RunMoveCalls(cfg, s, e.ok);
    }
  }

  // ---------------------------------------------------- where the promises stop

  ghost predicate Reaches(cfg: Config, s: State, t: State) {
    exists run :: Runs(cfg, s, run) && Exec(cfg, s, run) == t
  }

  lemma ReachesSelf(cfg: Config, s: State)
    ensures Reaches(cfg, s, s)
  {
    assert Runs(cfg, s, []) && Exec(cfg, s, []) == s;
  }

  lemma OneMore(cfg: Config, s: State, e: Event, t: State)
    requires Enabled(s, e) && Reaches(cfg, Apply(cfg, s, e), t)
    ensures Reaches(cfg, s, t)
  {
    var run :| Runs(cfg, Apply(cfg, s, e), run) && Exec(cfg, Apply(cfg, s, e), run) == t;
    assert ([e] + run)[1..] == run;
    assert Runs(cfg, s, [e] + run) && Exec(cfg, s, [e] + run) == t;
  }

  /** A body past the wait for the server can be finished, leaving all else as it is. */
  lemma BodyFinishes(cfg: Config, s: State, c: nat) returns (t: State)
    requires Inv(cfg, s) && In(s, c, Running) && !s.crashed && s.step > AWAIT_HTTP && !s.pprof.busy
    requires DATABASE in cfg.present && TELEMETRY in cfg.present
    ensures Reaches(cfg, s, t) && Inv(cfg, t)
    ensures t.step == STEPS && !t.crashed && t.once == Done && t.calls == s.calls[c := Returned]
    ensures t.run == s.run && t.mirror == s.mirror && t.server == s.server && t.ctxDone == s.ctxDone
    decreases STEPS - s.step
  {
    var e := if s.step == STEPS then Leave(c) else TearDown(c, true);
    InvKept(cfg, s, e);
    if s.step == STEPS {
      t := Apply(cfg, s, e);
      ReachesSelf(cfg, t);
    } else {
      t := BodyFinishes(cfg, Apply(cfg, s, e), c);
    }
    OneMore(cfg, s, e, t);
  }

  lemma LoadPasses(cfg: Config, s: State)
    requires s.run == Loading && RunInv(s)
    ensures var t := RunMove(cfg, s, true);
      && (t.run == Loading || t.run == Starting) && t.calls == s.calls && t.server == s.server && t.once == s.once
      && t.step == s.step && t.crashed == s.crashed && t.ctxDone == s.ctxDone && t.mirror == s.mirror + 1
      && t.pprof == s.pprof
  {
  }

  /** Loads that all succeed bring Run to the point of starting the server. */
  lemma LoadsPass(cfg: Config, s: State) returns (t: State)
    requires Inv(cfg, s) && !s.crashed && (s.run == Loading || s.run == Starting)
    ensures Reaches(cfg, s, t) && Inv(cfg, t)
    ensures t.run == Starting && t.calls == s.calls && t.server == s.server && t.once == s.once
    ensures t.step == s.step && !t.crashed && t.ctxDone == s.ctxDone && t.pprof == s.pprof
    decreases MIRRORS - s.mirror
  {
    if s.run == Starting {
      t := s;
      ReachesSelf(cfg, t);
    } else {
      InvKept(cfg, s, ByRun(true));
      LoadPasses(cfg, s);
      t := LoadsPass(cfg, RunMove(cfg, s, true));
      OneMore(cfg, s, ByRun(true), t);
    }
  }

  lemma ReachesOn(cfg: Config, s: State, t: State, u: State)
    requires Reaches(cfg, s, t) && Reaches(cfg, t, u)
    ensures Reaches(cfg, s, u)
  {
    var a :| Runs(cfg, s, a) && Exec(cfg, s, a) == t;
    RunFirst(cfg, s, a, u);
  }

  lemma {:induction false} RunFirst(cfg: Config, s: State, a: seq<Event>, u: State)
    requires Runs(cfg, s, a) && Reaches(cfg, Exec(cfg, s, a), u)
    ensures Reaches(cfg, s, u)
    decreases |a|
  {
    if a != [] {
      RunFirst(cfg, Apply(cfg, s, a[0]), a[1..], u);
      OneMore(cfg, s, a[0], u);
    }
  }

  lemma Then(cfg: Config, s: State, t: State, e: Event) returns (u: State)
    requires Reaches(cfg, s, t) && Inv(cfg, t) && Enabled(t, e)
    ensures u == Apply(cfg, t, e) && Reaches(cfg, s, u) && Inv(cfg, u)
  {
    u := Apply(cfg, t, e);
    ReachesSelf(cfg, u);
    OneMore(cfg, t, e, u);
    ReachesOn(cfg, s, t, u);
    InvKept(cfg, t, e);
  }

  /**
   * A Shutdown called before Run has got to its server tears everything down,
   * and Run starts the server all the same: it listens over a closed database,
   * and Run returns no error.
   */
  lemma ServesAfterTeardown(cfg: Config, callers: nat) returns (s: State)
    requires callers > 0 && DATABASE in cfg.present && TELEMETRY in cfg.present
    ensures Reachable(cfg, callers, s)
    ensures s.run == Ended(false) && s.server.listener == Listening && DATABASE in Torn(s.log)
  {
    var start := Start(cfg, callers);
    InvAtStart(cfg, callers);
    ReachesSelf(cfg, start);
    s := Then(cfg, start, start, CallShutdown(1));
    s := Then(cfg, start, s, Enter(1));
    s := Then(cfg, start, s, TearDown(1, false));
    s := Then(cfg, start, s, TearDown(1, false));
    var torn := BodyFinishes(cfg, s, 1);
    ReachesOn(cfg, start, s, torn);
    s := LoadsPass(cfg, torn);
    ReachesOn(cfg, start, torn, s);
    s := Then(cfg, start, s, ByRun(true));
    s := EndsListening(cfg, start, s);
  }

  /** From the wait of a process already torn down to a listening server that nothing will stop. */
  lemma EndsListening(cfg: Config, start: State, s: State) returns (t: State)
    requires Reaches(cfg, start, s) && Inv(cfg, s) && !s.crashed
    requires s.run == Waiting && s.once == Done && s.server == Server(true, Absent, Unbound)
    requires DATABASE in cfg.present
    ensures Reaches(cfg, start, t)
    ensures t.run == Ended(false) && t.server.listener == Listening && DATABASE in Torn(t.log)
  {
    t := Then(cfg, start, s, ByServer(Listens));
    t := Then(cfg, start, t, ByRun(true));
    t := Then(cfg, start, t, Enter(0));
    t := Then(cfg, start, t, ByRun(true));
    BelowIs(cfg.present, t.step);
  }

  /** A signal as soon as the server has been started. */
  lemma SignalledEarly(cfg: Config, callers: nat) returns (s: State)
    ensures Reaches(cfg, Start(cfg, callers), s) && Inv(cfg, s) && !s.crashed && !s.pprof.busy
    ensures s.run == Waiting && s.ctxDone && s.calls == Start(cfg, callers).calls && s.step == STOP_HTTP
    ensures s.once == Unused && s.server == Server(true, Absent, Unbound)
  {
    var start := Start(cfg, callers);
    InvAtStart(cfg, callers);
    s := LoadsPass(cfg, start);
    s := Then(cfg, start, s, ByRun(true));
    s := Then(cfg, start, s, Cancel);
  }

  /** Its goroutine does not wait on the channel yet: the body's order to stop reaches nobody. */
  lemma StopUnheard(cfg: Config, callers: nat) returns (s: State)
    ensures Reaches(cfg, Start(cfg, callers), s) && Inv(cfg, s) && !s.crashed && !s.pprof.busy
    ensures s.run == Stopping && s.calls == Start(cfg, callers).calls[0 := Running] && s.step == AWAIT_HTTP
    ensures s.server == Server(true, Absent, Unbound)
  {
    var start := Start(cfg, callers);
    s := SignalledEarly(cfg, callers);
    s := Then(cfg, start, s, ByRun(true));
    s := Then(cfg, start, s, Enter(0));
    s := Then(cfg, start, s, TearDown(0, false));
  }

  /** It listens after that, and the ten seconds run out. */
  lemma UnheardTimesOut(cfg: Config, callers: nat) returns (s: State)
    ensures Reaches(cfg, Start(cfg, callers), s) && Inv(cfg, s) && !s.crashed && !s.pprof.busy
    ensures s.run == Stopping && s.calls == Start(cfg, callers).calls[0 := Running] && s.step == LOCAL_LIMITER
    ensures s.server == Server(true, Absent, Listening)
  {
    var start := Start(cfg, callers);
    s := StopUnheard(cfg, callers);
    s := Then(cfg, start, s, ByServer(Listens));
    s := Then(cfg, start, s, TearDown(0, false));
  }

  /**
   * The same end with no caller but Run: the order to stop is not heard, the ten
   * seconds run out, and the database is closed under a server that is listening.
   */
  lemma UnheardStopServesOn(cfg: Config, callers: nat) returns (s: State)
    requires DATABASE in cfg.present && TELEMETRY in cfg.present
    ensures Reachable(cfg, callers, s) && s.calls == Start(cfg, callers).calls[0 := Returned]
    ensures s.run == Ended(false) && s.server.listener == Listening && DATABASE in Torn(s.log)
  {
    var start := Start(cfg, callers);
    var waited := UnheardTimesOut(cfg, callers);
    var torn := BodyFinishes(cfg, waited, 0);
    ReachesOn(cfg, start, waited, torn);
    s := Then(cfg, start, torn, ByRun(true));
    BelowIs(cfg.present, s.step);
  }

  /**
   * A server that cannot bind is told to stop, and it is all that is: Run waits
   * on, with nothing to serve, until a signal or a call of Shutdown, for which
   * the wait is then over at once.
   */
  lemma BindFailureServesNothing(cfg: Config, callers: nat) returns (s: State)
    ensures Reachable(cfg, callers, s) && AtRest(s) && !s.crashed
    ensures s.run == Waiting && s.once == Unused && s.server == Server(true, Shut, Reported)
    ensures forall c: nat, t: State ::
      In(t, c, Running) && t.step == AWAIT_HTTP && t.server == s.server && !t.crashed ==> Enabled(t, TearDown(c, true))
  {
    var start := Start(cfg, callers);
    s := Serves(cfg, callers);
    s := FailsToBind(cfg, start, s);
    NothingMoves(s);
  }

  /** Run waits, and its server's goroutine has not got anywhere. */
  lemma Serves(cfg: Config, callers: nat) returns (s: State)
    ensures Reaches(cfg, Start(cfg, callers), s) && Inv(cfg, s) && !s.crashed && !s.pprof.busy
    ensures s.run == Waiting && !s.ctxDone && s.once == Unused && s.server == Server(true, Absent, Unbound)
    ensures forall c: nat | c < |s.calls| :: s.calls[c] == Idle
  {
    InvAtStart(cfg, callers);
    var loaded := LoadsPass(cfg, Start(cfg, callers));
    s := Then(cfg, Start(cfg, callers), loaded, ByRun(true));
  }

  lemma FailsToBind(cfg: Config, start: State, s: State) returns (t: State)
    requires Reaches(cfg, start, s) && Inv(cfg, s) && !s.crashed
    requires s.once == Unused && s.server == Server(true, Absent, Unbound)
    ensures Reaches(cfg, start, t) && Inv(cfg, t) && t == s.(server := Server(true, Shut, Reported))
  {
    t := Then(cfg, start, s, ByServer(Parks));
    t := Then(cfg, start, t, ByServer(BindFails));
    t := Then(cfg, start, t, ByServer(Reports(true)));
    t := Then(cfg, start, t, ByServer(Drained));
  }

  lemma NothingMoves(s: State)
    requires OnceInv(s) && s.run == Waiting && !s.ctxDone && s.once == Unused && !s.pprof.busy
    requires s.server == Server(true, Shut, Reported) && forall c: nat | c < |s.calls| :: s.calls[c] == Idle
    ensures AtRest(s)
  {
  }

  /** And it never serves. */
  lemma {:induction false} BindFailureIsFinal(cfg: Config, s: State, run: seq<Event>)
    requires s.server.listener == Failed || s.server.listener == Reported
    requires Runs(cfg, s, run)
    ensures var v := Exec(cfg, s, run).server; v.listener == Failed || v.listener == Reported
    decreases |run|
  {
    if run != [] {
      StaysFailed(cfg, s, run[0]);
      BindFailureIsFinal(cfg, Apply(cfg, s, run[0]), run[1..]);
    }
  }

  lemma StaysFailed(cfg: Config, s: State, e: Event)
    requires Enabled(s, e) && (s.server.listener == Failed || s.server.listener == Reported)
    ensures var v := Apply(cfg, s, e).server; v.listener == Failed || v.listener == Reported
  {
    match e
    case ByRun(ok) => RunKeepsListener(cfg, s, ok);
    case TearDown(c, read) => TearDownKeepsListener(cfg, s, read);
    case ByServer(what) => ServerStaysFailed(cfg, s, what);
    case _ =>
  }

  lemma RunKeepsListener(cfg: Config, s: State, ok: bool)
    ensures RunMove(cfg, s, ok).server.listener == s.server.listener
  {
  }

  lemma TearDownKeepsListener(cfg: Config, s: State, read: bool)
    ensures TearDownMove(cfg, s, read).server.listener == s.server.listener
  {
  }

  lemma ServerStaysFailed(cfg: Config, s: State, what: ServerEvent)
    requires ServerMay(s.server, what) && (s.server.listener == Failed || s.server.listener == Reported)
    ensures var v := ServerMove(cfg, s, what).server; v.listener == Failed || v.listener == Reported
  {
  }

  /** Past pprof's Shutdown no profile is being taken, and none begins. */
  lemma NoProfileAfterwards(cfg: Config, callers: nat, s: State)
    requires Reachable(cfg, callers, s) && s.step > PPROF
    ensures !s.pprof.busy && forall begins :: !Enabled(s, ByProfile(begins))
  {
    var run :| Runs(cfg, Start(cfg, callers), run) && Exec(cfg, Start(cfg, callers), run) == s;
    InvAtStart(cfg, callers);
    QuietAfter(cfg, Start(cfg, callers), run);
  }

  lemma {:induction false} QuietAfter(cfg: Config, s: State, run: seq<Event>)
    requires Inv(cfg, s) && (s.step > PPROF ==> !s.pprof.busy) && Runs(cfg, s, run)
    ensures var t := Exec(cfg, s, run); t.step > PPROF ==> !t.pprof.busy
    decreases |run|
  {
    if run != [] {
      InvKept(cfg, s, run[0]);
      QuietStep(cfg, s, run[0]);
      QuietAfter(cfg, Apply(cfg, s, run[0]), run[1..]);
    }
  }

  lemma QuietStep(cfg: Config, s: State, e: Event)
    requires Enabled(s, e) && (s.step > PPROF ==> !s.pprof.busy)
    ensures var t := Apply(cfg, s, e); t.step > PPROF ==> !t.pprof.busy
  {
    match e
    case ByRun(ok) => RunKeepsPprof(cfg, s, ok);
    case TearDown(c, read) => TearDownKeepsPprof(cfg, s, read);
    case ByServer(what) => ServerKeepsPprof(cfg, s, what);
    case _ =>
  }

  lemma RunKeepsPprof(cfg: Config, s: State, ok: bool)
    ensures RunMove(cfg, s, ok).pprof == s.pprof && RunMove(cfg, s, ok).step == s.step
  {
  }

  lemma TearDownKeepsPprof(cfg: Config, s: State, read: bool)
    requires TearDownMay(s, read)
    ensures var t := TearDownMove(cfg, s, read); t.pprof == s.pprof && (t.step == s.step || t.step == s.step + 1)
  {
  }

  lemma ServerKeepsPprof(cfg: Config, s: State, what: ServerEvent)
    ensures var t := ServerMove(cfg, s, what);
      t.pprof == s.pprof && (t.step == s.step || (s.step == AWAIT_HTTP && t.step == s.step + 1))
  {
  }
}
