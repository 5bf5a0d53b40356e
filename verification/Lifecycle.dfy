/**
 * The life of one process as labelled steps over every interleaving: Run with
 * its gating loads, any number of concurrent Shutdown callers behind one
 * sync.Once, the teardown body, and the HTTP server with the unbuffered channel
 * that carries both the order to stop and the news that it has stopped.
 */
module Lifecycle {
  // ----------------------------------------------------------------- constants

  /** The mirrors loaded before serving, in order. */
  const DENYLIST: nat := 0
  const RULES: nat := 1
  const LIFETIMES: nat := 2
  const MIRRORS: nat := 3

  /** The steps of the teardown body, in order. */
  const STOP_HTTP: nat := 0
  const AWAIT_HTTP: nat := 1
  const LOCAL_LIMITER: nat := 2
  const SHARED_LIMITER: nat := 3
  const RULES_NOTIFIER: nat := 4
  const LIFETIMES_NOTIFIER: nat := 5
  const SUBSCRIBER: nat := 6
  const LOGIN_THROTTLE: nat := 7
  const PPROF: nat := 8
  const CACHE: nat := 9
  const DATABASE: nat := 10
  const MAIL: nat := 11
  const TELEMETRY: nat := 12
  const CHANNEL: nat := 13
  const STEPS: nat := 14

  /**
   * What this process was built with, the mirrors it keeps and the steps that
   * find their resource; and how many profiles clients will ask of pprof.
   */
  datatype Config = Config(enabled: set<nat>, present: set<nat>, profiles: nat)

  /** The two resources the body uses without asking whether they are there. */
  predicate Needed(k: nat) {
    k == DATABASE || k == TELEMETRY
  }

  // -------------------------------------------------------------------- states

  datatype RunState = Loading | Failing | Starting | Waiting | Stopping | Ended(failed: bool)

  datatype Call = Idle | Entering | Running | Returned

  datatype Once = Unused | Busy | Done

  /** The goroutine that receives the order to stop. */
  datatype Monitor = Absent | Parked | Draining | Shut

  datatype Listener = Unbound | Listening | Failed | Reported | Closed

  datatype Server = Server(spawned: bool, monitor: Monitor, listener: Listener)

  /** Whether a profile is being taken, and how many more will be asked for. */
  datatype Pprof = Pprof(busy: bool, left: nat)

  /** What an observer sees, in order. */
  datatype Action =
    | Loaded(mirror: nat)
    | Refused(mirror: nat)
    | Cancelled
    | Judged(mirror: nat)
    | Flushed
    | Spawned
    | Did(step: nat)

  datatype State = State(
    ctxDone: bool, run: RunState, mirror: nat, calls: seq<Call>, once: Once, step: nat,
    heard: bool, timedOut: bool, server: Server, pprof: Pprof, crashed: bool, log: seq<Action>)

  /** Before Run: `callers` goroutines may call Shutdown besides Run itself, which is caller 0. */
  function Start(cfg: Config, callers: nat): State {
    State(
      false, Loading, 0, seq(callers + 1, _ => Idle), Unused, 0, false, false,
      Server(false, Absent, Unbound), Pprof(false, if PPROF in cfg.present then cfg.profiles else 0), false, [])
  }

  // -------------------------------------------------------------------- events

  datatype ServerEvent = Parks | Listens | BindFails | Reports(toMonitor: bool) | Refuses | Drained | DrainFails

  datatype Event =
    | Cancel
    | ByRun(ok: bool)
    | CallShutdown(c: nat)
    | Enter(c: nat)
    | TearDown(c: nat, read: bool)
    | Leave(c: nat)
    | ByServer(what: ServerEvent)
    | ByProfile(begins: bool)

  predicate ChannelClosed(s: State) {
    s.step > CHANNEL
  }

  predicate RunMay(s: State) {
    match s.run
    case Loading => s.mirror < MIRRORS
    case Failing => true
    case Starting => true
    case Waiting => s.ctxDone || ChannelClosed(s)
    case Stopping => |s.calls| > 0 && s.calls[0] == Returned
    case Ended(_) => false
  }

  function Passed(s: State): State {
    s.(mirror := s.mirror + 1, run := if s.mirror + 1 == MIRRORS then Starting else Loading)
  }

  function RunMove(cfg: Config, s: State, ok: bool): State {
    match s.run
    case Loading =>
      if s.mirror !in cfg.enabled then Passed(s)
      else if ok then Passed(s).(log := s.log + [Loaded(s.mirror)])
      else s.(run := Failing, log := s.log + [Refused(s.mirror)])
    case Failing =>
      // stopOnError: the load's error counts only while the context is live.
      s.(run := Ended(!s.ctxDone),
         log := s.log + [Judged(s.mirror)] + if TELEMETRY in cfg.present then [Flushed] else [])
    case Starting =>
      // Whether a mail service that was skipped brings the start down is its library's affair.
      if MAIL in cfg.present || ok then
        s.(run := Waiting, server := s.server.(spawned := true), log := s.log + [Spawned])
      else s.(crashed := true)
    case Waiting =>
      if |s.calls| > 0 then s.(run := Stopping, calls := s.calls[0 := Entering]) else s
    case Stopping => s.(run := Ended(false))
    case Ended(_) => s
  }

  predicate In(s: State, c: nat, call: Call) {
    c < |s.calls| && s.calls[c] == call
  }

  /**
   * The body's next step; waiting for the server needs its channel closed, or
   * the ten seconds over, and pprof's Shutdown, which has no time limit, waits
   * for the profile being taken.
   */
  predicate TearDownMay(s: State, read: bool) {
    && s.step < STEPS
    && (s.step == AWAIT_HTTP && read ==> s.server.monitor == Shut)
    && (s.step == PPROF ==> !s.pprof.busy)
  }

  function TearDownMove(cfg: Config, s: State, read: bool): State {
    var next := s.(step := s.step + 1, log := if s.step in cfg.present then s.log + [Did(s.step)] else s.log);
    if s.step == STOP_HTTP then
      // A send that does not block: only a receiver already waiting gets it.
      var server := if s.server.monitor == Parked then s.server.(monitor := Draining) else s.server;
      next.(heard := s.server.monitor != Absent, server := server)
    else if s.step == AWAIT_HTTP then next.(timedOut := !read)
    else if Needed(s.step) && s.step !in cfg.present then s.(crashed := true)
    else if s.step == MAIL && MAIL !in cfg.present && !read then s.(crashed := true)
    else next
  }

  predicate ServerMay(v: Server, e: ServerEvent) {
    match e
    case Parks => v.spawned && v.monitor == Absent
    case Listens => v.spawned && v.listener == Unbound && v.monitor != Shut
    case BindFails => v.spawned && v.listener == Unbound
    case Reports(_) => v.listener == Failed
    case Refuses => v.spawned && v.listener == Unbound && (v.monitor == Draining || v.monitor == Shut)
    case Drained => v.monitor == Draining
    case DrainFails => v.monitor == Draining
  }

  /** Start calls Stop on a failure: the send reaches the monitor or the body's wait, if either is receiving. */
  function ReportMove(cfg: Config, s: State, toMonitor: bool): State {
    var waiting := s.once == Busy && s.step == AWAIT_HTTP && s.server.monitor != Shut;
    var told := s.(server := s.server.(listener := Reported));
    if s.server.monitor == Parked && (toMonitor || !waiting) then
      told.(server := told.server.(monitor := Draining))
    else if waiting then
      told.(step := s.step + 1, timedOut := false,
            log := if AWAIT_HTTP in cfg.present then s.log + [Did(AWAIT_HTTP)] else s.log)
    else told
  }

  function ServerMove(cfg: Config, s: State, e: ServerEvent): State {
    var v := s.server;
    match e
    case Parks => s.(server := v.(monitor := Parked))
    case Listens => s.(server := v.(listener := Listening))
    case BindFails => s.(server := v.(listener := Failed))
    case Reports(toMonitor) => ReportMove(cfg, s, toMonitor)
    case Refuses => s.(server := v.(listener := Closed))
    case Drained =>
      s.(server := v.(monitor := Shut, listener := if v.listener == Listening then Closed else v.listener))
    case DrainFails => s.(crashed := true)
  }

  /** One profile at a time, none once pprof's Shutdown has been called. */
  predicate ProfileMay(s: State, begins: bool) {
    if begins then s.server.spawned && !s.pprof.busy && s.pprof.left > 0 && s.step < PPROF else s.pprof.busy
  }

  predicate Enabled(s: State, e: Event) {
    && !s.crashed
    && match e
       case Cancel => !s.ctxDone
       case ByRun(_) => RunMay(s)
       case CallShutdown(c) => c > 0 && In(s, c, Idle)
       case Enter(c) => In(s, c, Entering) && s.once != Busy
       case TearDown(c, read) => In(s, c, Running) && TearDownMay(s, read)
       case Leave(c) => In(s, c, Running) && s.step == STEPS
       case ByServer(what) => ServerMay(s.server, what)
       case ByProfile(begins) => ProfileMay(s, begins)
  }

  function Apply(cfg: Config, s: State, e: Event): State
    requires Enabled(s, e)
  {
    match e
    case Cancel => s.(ctxDone := true, log := s.log + [Cancelled])
    case ByRun(ok) => RunMove(cfg, s, ok)
    case CallShutdown(c) => s.(calls := s.calls[c := Entering])
    case Enter(c) =>
      if s.once == Unused then s.(once := Busy, calls := s.calls[c := Running])
      else s.(calls := s.calls[c := Returned])
    case TearDown(c, read) => TearDownMove(cfg, s, read)
    case Leave(c) => s.(once := Done, calls := s.calls[c := Returned])
    case ByServer(what) => ServerMove(cfg, s, what)
    case ByProfile(begins) => s.(pprof := Pprof(begins, if begins then s.pprof.left - 1 else s.pprof.left))
  }

  predicate Runs(cfg: Config, s: State, run: seq<Event>)
    decreases |run|
  {
    run != [] ==> Enabled(s, run[0]) && Runs(cfg, Apply(cfg, s, run[0]), run[1..])
  }

  function Exec(cfg: Config, s: State, run: seq<Event>): State
    requires Runs(cfg, s, run)
    decreases |run|
  {
    if run == [] then s else Exec(cfg, Apply(cfg, s, run[0]), run[1..])
  }

  ghost predicate Reachable(cfg: Config, callers: nat, s: State) {
    exists run :: Runs(cfg, Start(cfg, callers), run) && Exec(cfg, Start(cfg, callers), run) == s
  }

  // ---------------------------------------------------------- what the log says

  /** The steps of the teardown body that were taken. */
  function Torn(log: seq<Action>): seq<nat> {
    if log == [] then []
    else Torn(log[..|log| - 1]) + if log[|log| - 1].Did? then [log[|log| - 1].step] else []
  }

  /** The mirrors that completed a first load. */
  function Loads(log: seq<Action>): seq<nat> {
    if log == [] then []
    else Loads(log[..|log| - 1]) + if log[|log| - 1].Loaded? then [log[|log| - 1].mirror] else []
  }

  /** The elements of a set below n, in increasing order. */
  function Below(xs: set<nat>, n: nat): seq<nat> {
    if n == 0 then [] else Below(xs, n - 1) + if n - 1 in xs then [n - 1] else []
  }

  lemma {:induction false} BelowIs(xs: set<nat>, n: nat)
    ensures forall x | x in Below(xs, n) :: x < n && x in xs
    ensures forall x: nat | x < n && x in xs :: x in Below(xs, n)
    ensures forall i, j | 0 <= i < j < |Below(xs, n)| :: Below(xs, n)[i] < Below(xs, n)[j]
  {
    if n > 0 {
      BelowIs(xs, n - 1);
      var shorter := Below(xs, n - 1);
      assert forall i | 0 <= i < |shorter| :: Below(xs, n)[i] == shorter[i] && shorter[i] in shorter;
    }
  }

  lemma {:induction false} TornAppended(log: seq<Action>, more: seq<Action>)
    ensures Torn(log + more) == Torn(log) + Torn(more)
    ensures Loads(log + more) == Loads(log) + Loads(more)
    decreases |more|
  {
    if more == [] {
      assert log + more == log;
    } else {
      var init := more[..|more| - 1];
      assert (log + more)[..|log + more| - 1] == log + init;
      TornAppended(log, init);
    }
  }

  lemma TornShort(a: Action, b: Action)
    ensures Torn([a]) == (if a.Did? then [a.step] else []) && Loads([a]) == (if a.Loaded? then [a.mirror] else [])
    ensures Torn([a, b]) == Torn([a]) + Torn([b]) && Loads([a, b]) == Loads([a]) + Loads([b])
  {
    assert [a][..0] == [] && [a, b] == [a] + [b];
    TornAppended([a], [b]);
  }

  // ---------------------------------------------------------------- invariants

  /** sync.Once: one caller runs the body, the others wait, and nobody returns before it is done. */
  ghost predicate OnceInv(s: State) {
    && s.calls != [] && s.step <= STEPS
    && (s.once == Busy <==> exists c: nat :: In(s, c, Running))
    && (forall c: nat, d: nat :: In(s, c, Running) && In(s, d, Running) ==> c == d)
    && (forall c: nat :: In(s, c, Returned) ==> s.once == Done)
    && (s.once == Unused ==> s.step == 0)
    && (s.once == Done ==> s.step == STEPS)
  }

  predicate RunInv(s: State) {
    && s.calls != [] && s.mirror <= MIRRORS
    && (s.run == Loading || s.run == Failing ==> s.mirror < MIRRORS)
    && (s.run == Starting || s.run == Waiting || s.run == Stopping ==> s.mirror == MIRRORS)
    && (s.server.spawned ==> s.mirror == MIRRORS && (s.run == Waiting || s.run == Stopping || s.run.Ended?))
    && (s.run == Waiting || s.run == Stopping ==> s.server.spawned)
    && (s.run == Stopping ==> s.calls[0] != Idle)
    && (!s.run.Ended? && s.run != Stopping ==> s.calls[0] == Idle)
    && (s.run.Ended? ==> s.calls[0] == Idle || s.calls[0] == Returned)
  }

  predicate ServerInv(s: State) {
    var v := s.server;
    && (!v.spawned ==> v.monitor == Absent && v.listener == Unbound)
    && (v.monitor == Shut ==> v.listener != Listening)
    && (s.step == STOP_HTTP && v.listener != Reported ==> v.monitor == Absent || v.monitor == Parked)
    && (s.step > STOP_HTTP && v.listener != Reported ==>
          (s.heard <==> v.monitor == Draining || v.monitor == Shut))
    && (s.step > AWAIT_HTTP && !s.timedOut ==> v.monitor == Shut || v.listener == Reported)
  }

  /** The body gets past a resource it needs only when that is there. */
  predicate NeededInv(cfg: Config, s: State) {
    && (s.step > DATABASE ==> DATABASE in cfg.present)
    && (s.step > TELEMETRY ==> TELEMETRY in cfg.present)
  }

  lemma SameCalls(s: State, t: State)
    requires OnceInv(s) && t.calls == s.calls && t.once == s.once
    requires t.step == s.step || (s.once == Busy && t.step <= STEPS)
    ensures OnceInv(t)
  {
    assert forall d: nat, k :: In(t, d, k) <==> In(s, d, k);
  }

  lemma OneCallEnters(s: State, t: State, c: nat)
    requires OnceInv(s) && In(s, c, Idle) && t.calls == s.calls[c := Entering] && t.once == s.once && t.step == s.step
    ensures OnceInv(t)
  {
    assert forall d: nat, k :: d != c ==> (In(t, d, k) <==> In(s, d, k));
    assert forall d: nat :: In(t, d, Running) <==> In(s, d, Running);
  }

  lemma EnterKeeps(s: State, t: State, c: nat)
    requires OnceInv(s) && In(s, c, Entering) && s.once != Busy
    requires t ==
      if s.once == Unused then s.(once := Busy, calls := s.calls[c := Running])
      else s.(calls := s.calls[c := Returned])
    ensures OnceInv(t)
  {
    assert forall d: nat, k :: d != c ==> (In(t, d, k) <==> In(s, d, k));
    assert s.once == Unused ==> In(t, c, Running);
  }

  lemma LeaveKeeps(s: State, t: State, c: nat)
    requires OnceInv(s) && In(s, c, Running) && s.step == STEPS
    requires t == s.(once := Done, calls := s.calls[c := Returned])
    ensures OnceInv(t)
  {
    assert forall d: nat, k :: d != c ==> (In(t, d, k) <==> In(s, d, k));
    assert forall d: nat :: !In(t, d, Running);
  }

  lemma RunMoveCalls(cfg: Config, s: State, ok: bool)
    requires RunInv(s) && RunMay(s)
    ensures var t := RunMove(cfg, s, ok);
      t.once == s.once && t.step == s.step && t.calls == if s.run == Waiting then s.calls[0 := Entering] else s.calls
  {
  }

  lemma TearDownCalls(cfg: Config, s: State, read: bool)
    requires TearDownMay(s, read)
    ensures var t := TearDownMove(cfg, s, read); t.once == s.once && t.step <= STEPS && t.calls == s.calls
  {
  }

  lemma ServerMoveCalls(cfg: Config, s: State, e: ServerEvent)
    requires ServerMay(s.server, e)
    ensures var t := ServerMove(cfg, s, e);
      t.once == s.once && t.calls == s.calls && (t.step == s.step || (s.once == Busy && t.step <= STEPS))
  {
  }

  lemma OnceKept(cfg: Config, s: State, e: Event)
    requires OnceInv(s) && RunInv(s) && Enabled(s, e)
    ensures OnceInv(Apply(cfg, s, e))
  {
    var t := Apply(cfg, s, e);
    match e
    case Cancel => SameCalls(s, t);
    case ByRun(ok) =>
      RunMoveCalls(cfg, s, ok);
      if s.run == Waiting {
        OneCallEnters(s, t, 0);
      } else {
        SameCalls(s, t);
      }
    case CallShutdown(c) => OneCallEnters(s, t, c);
    case Enter(c) => EnterKeeps(s, t, c);
    case TearDown(c, read) =>
      TearDownCalls(cfg, s, read);
      SameCalls(s, t);
    case Leave(c) => LeaveKeeps(s, t, c);
    case ByServer(what) =>
      ServerMoveCalls(cfg, s, what);
      SameCalls(s, t);
    case ByProfile(_) => SameCalls(s, t);
  }

  lemma RunMoveKeepsRun(cfg: Config, s: State, ok: bool)
    requires RunInv(s) && RunMay(s)
    ensures RunInv(RunMove(cfg, s, ok))
  {
  }

  lemma ServerMoveKeepsRun(cfg: Config, s: State, e: ServerEvent)
    requires RunInv(s) && ServerMay(s.server, e)
    ensures RunInv(ServerMove(cfg, s, e))
  {
  }

  lemma CallKeepsRun(s: State, t: State, c: nat)
    requires RunInv(s) && c < |s.calls| && |t.calls| == |s.calls|
    requires t.run == s.run && t.mirror == s.mirror && t.server.spawned == s.server.spawned
    requires t.calls[0] == s.calls[0] || (c == 0 && s.calls[0] != Idle && s.calls[0] != Returned && t.calls[0] != Idle)
    ensures RunInv(t)
  {
  }

  lemma CallEventKeepsRun(cfg: Config, s: State, e: Event)
    requires RunInv(s) && Enabled(s, e) && (e.CallShutdown? || e.Enter? || e.Leave?)
    ensures RunInv(Apply(cfg, s, e))
  {
    CallKeepsRun(s, Apply(cfg, s, e), e.c);
  }

  lemma OtherEventKeepsRun(cfg: Config, s: State, e: Event)
    requires RunInv(s) && Enabled(s, e) && (e.Cancel? || e.TearDown? || e.ByProfile?)
    ensures RunInv(Apply(cfg, s, e))
  {
    CallKeepsRun(s, Apply(cfg, s, e), 0);
  }

  lemma RunKept(cfg: Config, s: State, e: Event)
    requires RunInv(s) && Enabled(s, e)
    ensures RunInv(Apply(cfg, s, e))
  {
    if e.ByRun? {
      RunMoveKeepsRun(cfg, s, e.ok);
    } else if e.ByServer? {
      ServerMoveKeepsRun(cfg, s, e.what);
    } else if e.CallShutdown? || e.Enter? || e.Leave? {
      CallEventKeepsRun(cfg, s, e);
    } else {
      OtherEventKeepsRun(cfg, s, e);
    }
  }

  lemma RunMoveKeepsServer(cfg: Config, s: State, ok: bool)
    requires ServerInv(s) && RunInv(s) && RunMay(s)
    ensures ServerInv(RunMove(cfg, s, ok))
  {
  }

  lemma TearDownKeepsServer(cfg: Config, s: State, read: bool)
    requires ServerInv(s) && TearDownMay(s, read)
    ensures ServerInv(TearDownMove(cfg, s, read))
  {
  }

  lemma ServerMoveKeepsServer(cfg: Config, s: State, e: ServerEvent)
    requires ServerInv(s) && ServerMay(s.server, e)
    ensures ServerInv(ServerMove(cfg, s, e))
  {
  }

  lemma ServerKept(cfg: Config, s: State, e: Event)
    requires ServerInv(s) && RunInv(s) && Enabled(s, e)
    ensures ServerInv(Apply(cfg, s, e))
  {
    match e
    case ByRun(ok) => RunMoveKeepsServer(cfg, s, ok);
    case TearDown(c, read) => TearDownKeepsServer(cfg, s, read);
    case ByServer(what) => ServerMoveKeepsServer(cfg, s, what);
    case _ =>
  }

  lemma NeededKept(cfg: Config, s: State, e: Event)
    requires NeededInv(cfg, s) && Enabled(s, e)
    ensures NeededInv(cfg, Apply(cfg, s, e))
  {
    if e.ByRun? {
      RunMoveSteps(cfg, s, e.ok);
    }
  }

  lemma RunMoveSteps(cfg: Config, s: State, ok: bool)
    ensures RunMove(cfg, s, ok).step == s.step
  {
  }

  // ------------------------------------------------------- the log's invariants

  predicate JudgedAt(log: seq<Action>, j: int) {
    0 <= j < |log| && log[j].Judged?
  }

  predicate SpawnedAt(log: seq<Action>, j: int) {
    0 <= j < |log| && log[j] == Spawned
  }

  /** How often the telemetry was shut down: by stopOnError and by the teardown body. */
  function Shutdowns(log: seq<Action>): nat {
    if log == [] then 0
    else Shutdowns(log[..|log| - 1]) + if log[|log| - 1] in {Flushed, Did(TELEMETRY)} then 1 else 0
  }

  ghost predicate TornInv(cfg: Config, s: State) {
    && Torn(s.log) == Below(cfg.present, s.step)
    && Loads(s.log) == Below(cfg.enabled, s.mirror)
  }

  ghost predicate SpawnInv(cfg: Config, s: State) {
    && (s.ctxDone <==> Cancelled in s.log)
    && (Spawned in s.log <==> s.server.spawned)
    && forall j :: SpawnedAt(s.log, j) ==> Loads(s.log[..j]) == Below(cfg.enabled, MIRRORS)
  }

  ghost predicate WasJudged(s: State) {
    exists j :: JudgedAt(s.log, j)
  }

  ghost predicate JudgedInv(s: State) {
    && (forall j :: JudgedAt(s.log, j) ==>
          s.run == Ended(Cancelled !in s.log[..j]) && Refused(s.log[j].mirror) in s.log[..j])
    && (s.run == Ended(true) ==> WasJudged(s))
    && (WasJudged(s) ==> s.mirror < MIRRORS)
    && (s.run == Failing ==> Refused(s.mirror) in s.log)
  }

  ghost predicate ShutdownsInv(cfg: Config, s: State) {
    TELEMETRY in cfg.present ==>
      Shutdowns(s.log) == (if WasJudged(s) then 1 else 0) + (if s.step > TELEMETRY then 1 else 0)
  }

  lemma {:induction false} ShutdownsAppended(log: seq<Action>, more: seq<Action>)
    ensures Shutdowns(log + more) == Shutdowns(log) + Shutdowns(more)
    decreases |more|
  {
    if more == [] {
      assert log + more == log;
    } else {
      assert (log + more)[..|log + more| - 1] == log + more[..|more| - 1];
      ShutdownsAppended(log, more[..|more| - 1]);
    }
  }

  lemma ShutdownsShort(a: Action, b: Action)
    ensures Shutdowns([a]) == if a in {Flushed, Did(TELEMETRY)} then 1 else 0
    ensures Shutdowns([a, b]) == Shutdowns([a]) + Shutdowns([b])
  {
    assert [a][..0] == [] && [a, b] == [a] + [b];
    ShutdownsAppended([a], [b]);
  }

  /** What a move of Run adds to the log. */
  function RunAdds(cfg: Config, s: State, ok: bool): seq<Action> {
    match s.run
    case Loading => if s.mirror !in cfg.enabled then [] else if ok then [Loaded(s.mirror)] else [Refused(s.mirror)]
    case Failing => if TELEMETRY in cfg.present then [Judged(s.mirror), Flushed] else [Judged(s.mirror)]
    case Starting => if MAIL in cfg.present || ok then [Spawned] else []
    case _ => []
  }

  lemma RunAddsToLog(cfg: Config, s: State, ok: bool)
    requires RunMay(s)
    ensures RunMove(cfg, s, ok).log == s.log + RunAdds(cfg, s, ok)
  {
    if s.run == Failing {
      assert [Judged(s.mirror)] + [Flushed] == [Judged(s.mirror), Flushed];
    }
  }

  /** Every event but a move of Run adds nothing, Cancelled, or the teardown step it takes. */
  lemma OthersAdd(cfg: Config, s: State, e: Event) returns (more: seq<Action>)
    requires Enabled(s, e) && !e.ByRun?
    ensures var t := Apply(cfg, s, e);
      && t.log == s.log + more && t.run == s.run && t.mirror == s.mirror && t.server.spawned == s.server.spawned
      && (t.step == s.step || t.step == s.step + 1)
      && more == (if e.Cancel? then [Cancelled]
                  else if t.step == s.step + 1 && s.step in cfg.present then [Did(s.step)] else [])
      && t.ctxDone == (s.ctxDone || e.Cancel?)
      && (e.Cancel? ==> t.step == s.step)
  {
    var t := Apply(cfg, s, e);
    more := if e.Cancel? then [Cancelled]
            else if t.step == s.step + 1 && s.step in cfg.present then [Did(s.step)] else [];
    match e
    case TearDown(c, read) =>
    case ByServer(what) => ServerAdds(cfg, s, what);
    case _ =>
  }

  lemma ServerAdds(cfg: Config, s: State, what: ServerEvent)
    requires ServerMay(s.server, what)
    ensures var t := ServerMove(cfg, s, what);
      && t.run == s.run && t.mirror == s.mirror && t.server.spawned == s.server.spawned && t.ctxDone == s.ctxDone
      && (t.step == s.step || t.step == s.step + 1)
      && t.log == s.log + if t.step == s.step + 1 && s.step in cfg.present then [Did(s.step)] else []
  {
    if what.Reports? {
      ReportAdds(cfg, s, what.toMonitor);
    }
  }

  lemma ReportAdds(cfg: Config, s: State, toMonitor: bool)
    ensures var t := ReportMove(cfg, s, toMonitor);
      && t.run == s.run && t.mirror == s.mirror && t.server.spawned == s.server.spawned && t.ctxDone == s.ctxDone
      && (t.step == s.step || t.step == s.step + 1)
      && t.log == s.log + if t.step == s.step + 1 && s.step in cfg.present then [Did(s.step)] else []
  {
  }

  lemma TornKept(cfg: Config, s: State, e: Event)
    requires TornInv(cfg, s) && RunInv(s) && Enabled(s, e)
    ensures TornInv(cfg, Apply(cfg, s, e))
  {
    TornShort(Did(s.step), Cancelled);
    TornShort(Cancelled, Cancelled);
    if e.ByRun? {
      RunMoveKeepsTorn(cfg, s, e.ok);
    } else {
      var more := OthersAdd(cfg, s, e);
      TornAppended(s.log, more);
    }
  }

  lemma RunAddsIs(cfg: Config, s: State, ok: bool)
    ensures var more := RunAdds(cfg, s, ok);
      && Torn(more) == []
      && Loads(more) == (if s.run == Loading && s.mirror in cfg.enabled && ok then [s.mirror] else [])
      && (TELEMETRY in cfg.present ==> Shutdowns(more) == if s.run == Failing then 1 else 0)
  {
    match s.run
    case Loading =>
      var a := if ok then Loaded(s.mirror) else Refused(s.mirror);
      TornShort(a, a);
      ShutdownsShort(a, a);
    case Failing =>
      TornShort(Judged(s.mirror), Flushed);
      TornShort(Flushed, Flushed);
      ShutdownsShort(Judged(s.mirror), Flushed);
      ShutdownsShort(Flushed, Flushed);
    case Starting =>
      TornShort(Spawned, Spawned);
      ShutdownsShort(Spawned, Spawned);
    case _ =>
  }

  lemma RunMoveKeepsTorn(cfg: Config, s: State, ok: bool)
    requires TornInv(cfg, s) && RunInv(s) && RunMay(s)
    ensures TornInv(cfg, RunMove(cfg, s, ok))
  {
    RunAddsToLog(cfg, s, ok);
    TornAppended(s.log, RunAdds(cfg, s, ok));
    RunAddsIs(cfg, s, ok);
    RunMoveCounts(cfg, s, ok);
  }

  lemma RunMoveCounts(cfg: Config, s: State, ok: bool)
    requires RunMay(s)
    ensures var t := RunMove(cfg, s, ok);
      && t.step == s.step
      && t.mirror == s.mirror + if s.run == Loading && (s.mirror !in cfg.enabled || ok) then 1 else 0
  {
  }

  /** Appending keeps what is said of the earlier prefixes. */
  lemma SpawnAppended(cfg: Config, s: State, t: State, more: seq<Action>)
    requires SpawnInv(cfg, s) && t.log == s.log + more
    requires t.ctxDone == (s.ctxDone || Cancelled in more)
    requires t.server.spawned == (s.server.spawned || Spawned in more)
    requires Spawned in more ==> more == [Spawned] && Loads(s.log) == Below(cfg.enabled, MIRRORS)
    ensures SpawnInv(cfg, t)
  {
    forall j | SpawnedAt(t.log, j) ensures Loads(t.log[..j]) == Below(cfg.enabled, MIRRORS) {
      if j < |s.log| {
        assert SpawnedAt(s.log, j) && t.log[..j] == s.log[..j];
      } else {
        assert t.log[j] in more && t.log[..j] == s.log;
      }
    }
  }

  lemma SpawnKept(cfg: Config, s: State, e: Event)
    requires SpawnInv(cfg, s) && TornInv(cfg, s) && RunInv(s) && Enabled(s, e)
    ensures SpawnInv(cfg, Apply(cfg, s, e))
  {
    var t := Apply(cfg, s, e);
    if e.ByRun? {
      RunAddsToLog(cfg, s, e.ok);
      RunMoveSpawns(cfg, s, e.ok);
      SpawnAppended(cfg, s, t, RunAdds(cfg, s, e.ok));
    } else {
      var more := OthersAdd(cfg, s, e);
      SpawnAppended(cfg, s, t, more);
    }
  }

  lemma RunMoveSpawns(cfg: Config, s: State, ok: bool)
    requires RunMay(s)
    ensures var t := RunMove(cfg, s, ok);
      && t.ctxDone == s.ctxDone && t.step == s.step
      && t.server.spawned == (s.server.spawned || Spawned in RunAdds(cfg, s, ok))
      && Cancelled !in RunAdds(cfg, s, ok)
      && (Spawned in RunAdds(cfg, s, ok) ==> s.run == Starting && RunAdds(cfg, s, ok) == [Spawned])
  {
  }

  ghost predicate NoneJudged(log: seq<Action>) {
    forall j :: !JudgedAt(log, j)
  }

  lemma JudgedSplit(log: seq<Action>, more: seq<Action>)
    requires NoneJudged(more)
    ensures forall j :: JudgedAt(log + more, j) <==> JudgedAt(log, j)
    ensures forall j :: JudgedAt(log, j) ==> (log + more)[..j] == log[..j]
  {
    assert forall j :: JudgedAt(log + more, j) ==> JudgedAt(log, j) || JudgedAt(more, j - |log|);
  }

  /** Only stopOnError judges, and it judges once. */
  lemma JudgedAppended(s: State, t: State, more: seq<Action>)
    requires JudgedInv(s) && t.log == s.log + more && !WasJudged(s) && NoneJudged(more)
    requires t.run != Ended(true)
    requires t.run == Failing ==> (s.run == Failing && t.mirror == s.mirror) || Refused(t.mirror) in more
    ensures JudgedInv(t) && !WasJudged(t)
  {
    JudgedSplit(s.log, more);
  }

  lemma JudgedStays(s: State, t: State, more: seq<Action>)
    requires JudgedInv(s) && t.log == s.log + more && t.run == s.run && t.mirror == s.mirror && NoneJudged(more)
    ensures JudgedInv(t) && WasJudged(t) == WasJudged(s)
  {
    JudgedSplit(s.log, more);
  }

  lemma Judges(cfg: Config, s: State, ok: bool)
    requires JudgedInv(s) && SpawnInv(cfg, s) && RunInv(s) && s.run == Failing
    ensures JudgedInv(RunMove(cfg, s, ok)) && WasJudged(RunMove(cfg, s, ok)) && !WasJudged(s)
  {
    var t := RunMove(cfg, s, ok);
    RunAddsToLog(cfg, s, ok);
    assert t.log[..|s.log|] == s.log && JudgedAt(t.log, |s.log|);
    forall j | JudgedAt(t.log, j) ensures j == |s.log| {
      if j < |s.log| {
        assert JudgedAt(s.log, j);
      }
    }
  }

  lemma JudgedKept(cfg: Config, s: State, e: Event)
    requires JudgedInv(s) && SpawnInv(cfg, s) && RunInv(s) && Enabled(s, e)
    ensures JudgedInv(Apply(cfg, s, e))
    ensures WasJudged(Apply(cfg, s, e)) <==> WasJudged(s) || (e.ByRun? && s.run == Failing)
  {
    if !e.ByRun? {
      var more := OthersAdd(cfg, s, e);
      JudgedStays(s, Apply(cfg, s, e), more);
    } else if s.run == Failing {
      Judges(cfg, s, e.ok);
    } else {
      RunAddsToLog(cfg, s, e.ok);
      NotEndedNotJudged(s);
      JudgedAppended(s, RunMove(cfg, s, e.ok), RunAdds(cfg, s, e.ok));
    }
  }

  lemma NotEndedNotJudged(s: State)
    requires JudgedInv(s) && !s.run.Ended?
    ensures !WasJudged(s)
  {
    forall j | JudgedAt(s.log, j) ensures false {
    }
  }

  lemma ShutdownsKept(cfg: Config, s: State, e: Event)
    requires ShutdownsInv(cfg, s) && JudgedInv(s) && SpawnInv(cfg, s) && RunInv(s) && Enabled(s, e)
    ensures ShutdownsInv(cfg, Apply(cfg, s, e))
  {
    JudgedKept(cfg, s, e);
    if TELEMETRY in cfg.present {
      if e.ByRun? {
        RunMoveShutsDown(cfg, s, e.ok);
        if s.run == Failing {
          NotEndedNotJudged(s);
        }
      } else {
        OthersShutDown(cfg, s, e);
      }
    }
  }

  lemma OthersShutDown(cfg: Config, s: State, e: Event)
    requires Enabled(s, e) && !e.ByRun? && TELEMETRY in cfg.present
    ensures var t := Apply(cfg, s, e);
      && (t.step == s.step || t.step == s.step + 1)
      && Shutdowns(t.log) == Shutdowns(s.log) + if s.step == TELEMETRY && t.step == s.step + 1 then 1 else 0
  {
    ShutdownsShort(Did(s.step), Cancelled);
    ShutdownsShort(Cancelled, Cancelled);
    var more := OthersAdd(cfg, s, e);
    ShutdownsAppended(s.log, more);
  }

  lemma RunMoveShutsDown(cfg: Config, s: State, ok: bool)
    requires RunMay(s) && TELEMETRY in cfg.present
    ensures RunMove(cfg, s, ok).step == s.step
    ensures Shutdowns(RunMove(cfg, s, ok).log) == Shutdowns(s.log) + if s.run == Failing then 1 else 0
  {
    RunAddsToLog(cfg, s, ok);
    ShutdownsAppended(s.log, RunAdds(cfg, s, ok));
    RunAddsIs(cfg, s, ok);
    RunMoveCounts(cfg, s, ok);
  }

  // ------------------------------------------------------------ reachable states

  ghost predicate Inv(cfg: Config, s: State) {
    && OnceInv(s) && RunInv(s) && ServerInv(s) && NeededInv(cfg, s)
    && TornInv(cfg, s) && SpawnInv(cfg, s) && JudgedInv(s) && ShutdownsInv(cfg, s)
  }

  lemma InvAtStart(cfg: Config, callers: nat)
    ensures Inv(cfg, Start(cfg, callers))
  {
    assert forall c: nat, k :: In(Start(cfg, callers), c, k) ==> k == Idle;
    assert forall j :: !JudgedAt(Start(cfg, callers).log, j);
  }

  lemma InvKept(cfg: Config, s: State, e: Event)
    requires Inv(cfg, s) && Enabled(s, e)
    ensures Inv(cfg, Apply(cfg, s, e))
  {
    OnceKept(cfg, s, e);
    RunKept(cfg, s, e);
    ServerKept(cfg, s, e);
    NeededKept(cfg, s, e);
    TornKept(cfg, s, e);
    SpawnKept(cfg, s, e);
    JudgedKept(cfg, s, e);
    ShutdownsKept(cfg, s, e);
  }

  lemma {:induction false} ExecKeepsInv(cfg: Config, s: State, run: seq<Event>)
    requires Inv(cfg, s) && Runs(cfg, s, run)
    ensures Inv(cfg, Exec(cfg, s, run))
    decreases |run|
  {
    if run != [] {
      InvKept(cfg, s, run[0]);
      ExecKeepsInv(cfg, Apply(cfg, s, run[0]), run[1..]);
    }
  }

  lemma ReachableInv(cfg: Config, callers: nat, s: State)
    requires Reachable(cfg, callers, s)
    ensures Inv(cfg, s)
  {
    var run :| Runs(cfg, Start(cfg, callers), run) && Exec(cfg, Start(cfg, callers), run) == s;
    InvAtStart(cfg, callers);
    ExecKeepsInv(cfg, Start(cfg, callers), run);
  }
}
