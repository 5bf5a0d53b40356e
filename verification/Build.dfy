/** AppBuilder.Build: the phases in order, what is injected or skipped, and the end of a start that fails. */
module Build {
  import opened Wrappers

  /** A phase's own error, or what a constructor refuses a nil pool or a nil telemetry with. */
  datatype Error = Text(text: string) | NilDatabase | NilTelemetry

  /** The phases, in the order Build takes them. */
  const CONFIGS: nat := 0
  const TELEMETRY: nat := 1
  const DATABASE: nat := 2
  const REPOSITORIES: nat := 3
  const SEEDED_ADMIN: nat := 4
  const MAIL: nat := 5
  const SERVICES: nat := 6
  const HANDLERS: nat := 7
  const HTTP_SERVER: nat := 8
  const PHASES: nat := 9

  datatype Source = Init | Given | Skipped

  /** What the With and Skip methods asked for. */
  datatype Builder = Builder(
    givenConfigs: bool, telemetry: Source, database: Source, givenRepositories: bool,
    mail: Source, givenServices: bool, givenHandlers: bool)

  function SourceOf(b: Builder, phase: nat): Source {
    if phase == CONFIGS then (if b.givenConfigs then Given else Init)
    else if phase == TELEMETRY then b.telemetry
    else if phase == DATABASE then b.database
    else if phase == REPOSITORIES then (if b.givenRepositories then Given else Init)
    else if phase == MAIL then b.mail
    else if phase == SERVICES then (if b.givenServices then Given else Init)
    else if phase == HANDLERS then (if b.givenHandlers then Given else Init)
    else Init
  }

  /**
   * What happens during one Build: the errors and panics of its phases, whether
   * the context is done by then, and whether the configs enable the cache.
   */
  datatype World = World(fails: nat -> Option<Error>, panics: nat -> bool, cancelled: nat -> bool, cache: bool)

  datatype Outcome = Fine | Errs(error: Error) | Panics

  /**
   * A phase that is run.  What was skipped is a nil pointer to those after it:
   * the seeded administrator's check queries the pool, and the mail service, a
   * cache and the server take their instruments from the telemetry, without
   * asking; the repositories, services and handlers ask, and refuse.
   */
  function OutcomeOf(b: Builder, world: World, phase: nat): Outcome {
    if SourceOf(b, phase) != Init then Fine
    else if phase == SEEDED_ADMIN && b.database == Skipped then Panics
    else if world.fails(phase).Some? then Errs(world.fails(phase).value)
    else if world.panics(phase) then Panics
    else if phase == REPOSITORIES && b.database == Skipped then Errs(NilDatabase)
    else if b.telemetry != Skipped then Fine
    else if phase == MAIL || phase == HTTP_SERVER || (phase == SERVICES && world.cache) then Panics
    else if phase == REPOSITORIES || phase == SERVICES || phase == HANDLERS then Errs(NilTelemetry)
    else Fine
  }

  /** How Build ends: an App, an error, or a panic that nothing recovers. */
  datatype Verdict = Built | Failed(error: Error) | Panicked

  function VerdictOf(o: Outcome): Verdict {
    match o
    case Fine => Built
    case Errs(e) => Failed(e)
    case Panics => Panicked
  }

  /** The lines and flushes of a failed start, and the phases that ran. */
  datatype Action = Ran(phase: nat) | Took(phase: nat) | ErrorLine | InfoLine | Flushed

  /** What stopOnError does and returns: a load or phase cut short by a signal is not an error. */
  function StopOnError(cancelled: bool, err: Error, telemetry: bool): (Option<Error>, seq<Action>) {
    (if cancelled then None else Some(err),
     [if cancelled then InfoLine else ErrorLine] + if telemetry then [Flushed] else [])
  }

  /** What a phase that does not fail leaves in the log. */
  function Leaves(b: Builder, phase: nat): seq<Action> {
    match SourceOf(b, phase)
    case Init => [Ran(phase)]
    case Given => [Took(phase)]
    case Skipped => []
  }

  function LeftBefore(b: Builder, phase: nat): seq<Action> {
    if phase == 0 then [] else LeftBefore(b, phase - 1) + Leaves(b, phase - 1)
  }

  predicate Stops(b: Builder, world: World, phase: nat) {
    OutcomeOf(b, world, phase) != Fine
  }

  predicate FirstStop(b: Builder, world: World, phase: nat) {
    phase < PHASES && Stops(b, world, phase) && NoneBefore(b, world, phase)
  }

  predicate NoneBefore(b: Builder, world: World, phase: nat) {
    forall p: nat | p < phase :: !Stops(b, world, p)
  }

  /** What the end of a start adds: nothing until the telemetry phase is over, and nothing on a panic. */
  function Ending(b: Builder, world: World, phase: nat): seq<Action> {
    if phase <= TELEMETRY || OutcomeOf(b, world, phase) == Panics then []
    else [if world.cancelled(phase) then InfoLine else ErrorLine] + if b.telemetry == Skipped then [] else [Flushed]
  }

  /** The closure `stop`. */
  method Stop(b: Builder, world: World, phase: nat, err: Error, log: seq<Action>)
    returns (failed: Option<Error>, now: seq<Action>)
    requires phase > TELEMETRY && OutcomeOf(b, world, phase) == Errs(err)
    ensures failed == Some(err) && now == log + Ending(b, world, phase)
  {
    var (stopped, did) := StopOnError(world.cancelled(phase), err, b.telemetry != Skipped);
    failed := if stopped.Some? then stopped else Some(err);
    now := log + did;
  }

  /** Everything built, or the end of the first phase that stops it and nothing of a later phase. */
  ghost predicate IsAnswer(b: Builder, world: World, verdict: Verdict, log: seq<Action>) {
    && (verdict == Built <==> NoneBefore(b, world, PHASES))
    && (verdict == Built ==> log == LeftBefore(b, PHASES))
    && forall p: nat | FirstStop(b, world, p) ::
         verdict == VerdictOf(OutcomeOf(b, world, p)) && log == LeftBefore(b, p) + Ending(b, world, p)
  }

  lemma StopAnswers(b: Builder, world: World, phase: nat)
    requires FirstStop(b, world, phase)
    ensures IsAnswer(b, world, VerdictOf(OutcomeOf(b, world, phase)), LeftBefore(b, phase) + Ending(b, world, phase))
  {
  }

  /** One phase; where it stops, so does the whole build. */
  method Attempt(b: Builder, world: World, phase: nat, log: seq<Action>)
    returns (verdict: Verdict, now: seq<Action>)
    requires phase < PHASES && log == LeftBefore(b, phase) && NoneBefore(b, world, phase)
    ensures verdict != Built ==> IsAnswer(b, world, verdict, now)
    ensures verdict == Built ==> NoneBefore(b, world, phase + 1) && now == LeftBefore(b, phase + 1)
  {
    verdict, now := Built, log;
    if Stops(b, world, phase) {
      StopAnswers(b, world, phase);
    }
    match SourceOf(b, phase)
    case Skipped =>
    case Given => now := log + [Took(phase)];
    case Init =>
      match OutcomeOf(b, world, phase)
      case Fine => now := log + [Ran(phase)];
      case Panics => verdict := Panicked;
      case Errs(err) =>
        if phase > TELEMETRY {
          var failed;
          failed, now := Stop(b, world, phase, err, log);
          verdict := Failed(failed.value);
        } else {
          verdict := Failed(err);
        }
  }

  /**
   * Build returns an App exactly when no phase stops it; otherwise the first one
   * that does ends it, with its error even when the context is done, or with its
   * panic, and nothing of a later phase is run.
   */
  method BuildApp(b: Builder, world: World) returns (verdict: Verdict, log: seq<Action>)
    ensures IsAnswer(b, world, verdict, log)
  {
    verdict, log := Attempt(b, world, CONFIGS, []);
    if verdict != Built { return; }
    verdict, log := Attempt(b, world, TELEMETRY, log);
    if verdict != Built { return; }
    verdict, log := Attempt(b, world, DATABASE, log);
    if verdict != Built { return; }
    verdict, log := Attempt(b, world, REPOSITORIES, log);
    if verdict != Built { return; }
    verdict, log := Attempt(b, world, SEEDED_ADMIN, log);
    if verdict != Built { return; }
    verdict, log := Attempt(b, world, MAIL, log);
    if verdict != Built { return; }
    verdict, log := Attempt(b, world, SERVICES, log);
    if verdict != Built { return; }
    verdict, log := Attempt(b, world, HANDLERS, log);
    if verdict != Built { return; }
    verdict, log := Attempt(b, world, HTTP_SERVER, log);
  }

  /**
   * An App that Build returns has a database and a telemetry: with the database
   * skipped Build has stopped by the seeded administrator's check, and with the
   * telemetry skipped by the server, if nothing stopped it before.
   */
  lemma BuiltHasBoth(b: Builder, world: World, verdict: Verdict, log: seq<Action>)
    requires IsAnswer(b, world, verdict, log)
    ensures verdict == Built ==> b.database != Skipped && b.telemetry != Skipped
    ensures forall p: nat | FirstStop(b, world, p) ::
      && (b.database == Skipped ==> p <= SEEDED_ADMIN)
      && (b.telemetry == Skipped ==> p <= HTTP_SERVER)
  {
    assert b.database == Skipped ==> Stops(b, world, SEEDED_ADMIN);
    assert b.telemetry == Skipped ==> Stops(b, world, HTTP_SERVER);
  }

  /** With the database skipped and repositories given, only the phases before it can keep Build from the panic. */
  lemma SkippedDatabasePanics(b: Builder, world: World, verdict: Verdict, log: seq<Action>)
    requires IsAnswer(b, world, verdict, log) && b.database == Skipped && b.givenRepositories
    requires NoneBefore(b, world, DATABASE)
    ensures verdict == Panicked && Flushed !in log
  {
    assert NoneBefore(b, world, SEEDED_ADMIN);
    assert FirstStop(b, world, SEEDED_ADMIN);
    NothingFlushed(b, SEEDED_ADMIN);
  }

  /** Nothing goes wrong by itself. */
  ghost predicate Quiet(world: World) {
    forall p: nat :: world.fails(p).None? && !world.panics(p)
  }

  /** Where a build ends that skipped the telemetry, by what it was given instead: refused with an error, or a panic. */
  lemma SkippedTelemetryEnds(b: Builder, world: World, verdict: Verdict, log: seq<Action>)
    requires IsAnswer(b, world, verdict, log) && Quiet(world) && b.telemetry == Skipped && b.database != Skipped
    ensures verdict ==
      if !b.givenRepositories then Failed(NilTelemetry)
      else if b.mail == Init || (!b.givenServices && world.cache) then Panicked
      else if b.givenServices && b.givenHandlers then Panicked
      else Failed(NilTelemetry)
  {
    var first :=
      if !b.givenRepositories then REPOSITORIES
      else if b.mail == Init then MAIL
      else if !b.givenServices then SERVICES
      else if !b.givenHandlers then HANDLERS
      else HTTP_SERVER;
    assert FirstStop(b, world, first);
  }

  /** And one that skipped the database: the repositories refuse a nil pool, and the check after them panics on it. */
  lemma SkippedDatabaseEnds(b: Builder, world: World, verdict: Verdict, log: seq<Action>)
    requires IsAnswer(b, world, verdict, log) && Quiet(world) && b.database == Skipped
    ensures verdict ==
      if b.givenRepositories then Panicked else Failed(NilDatabase)
  {
    assert FirstStop(b, world, if b.givenRepositories then SEEDED_ADMIN else REPOSITORIES);
  }

  /** One phase that runs unless its result was given. */
  function Once(phase: nat, given: bool): seq<Action> {
    [if given then Took(phase) else Ran(phase)]
  }

  /** One that may be skipped as well. */
  function IfNotSkipped(phase: nat, source: Source): seq<Action> {
    if source == Skipped then [] else Once(phase, source == Given)
  }

  /** By name: what a build that succeeds has gone through, in order, and where each result came from. */
  lemma BuiltByName(b: Builder, world: World, log: seq<Action>)
    requires IsAnswer(b, world, Built, log)
    ensures log ==
      Once(CONFIGS, b.givenConfigs)
      + IfNotSkipped(TELEMETRY, b.telemetry)
      + IfNotSkipped(DATABASE, b.database)
      + Once(REPOSITORIES, b.givenRepositories)
      + Once(SEEDED_ADMIN, false)
      + IfNotSkipped(MAIL, b.mail)
      + Once(SERVICES, b.givenServices)
      + Once(HANDLERS, b.givenHandlers)
      + Once(HTTP_SERVER, false)
  {
    assert LeftBefore(b, 0) == [];
    assert LeftBefore(b, 1) == Leaves(b, 0) && LeftBefore(b, 2) == LeftBefore(b, 1) + Leaves(b, 1);
    assert LeftBefore(b, 3) == LeftBefore(b, 2) + Leaves(b, 2) && LeftBefore(b, 4) == LeftBefore(b, 3) + Leaves(b, 3);
    assert LeftBefore(b, 5) == LeftBefore(b, 4) + Leaves(b, 4) && LeftBefore(b, 6) == LeftBefore(b, 5) + Leaves(b, 5);
    assert LeftBefore(b, 7) == LeftBefore(b, 6) + Leaves(b, 6) && LeftBefore(b, 8) == LeftBefore(b, 7) + Leaves(b, 7);
    assert LeftBefore(b, 9) == LeftBefore(b, 8) + Leaves(b, 8);
  }

  /**
   * With nothing skipped and nothing panicking, Build fails exactly when a phase
   * it runs does, with the error of the first.
   */
  lemma FirstErrorIsReturned(b: Builder, world: World, verdict: Verdict, log: seq<Action>)
    requires IsAnswer(b, world, verdict, log) && b.database != Skipped && b.telemetry != Skipped
    requires forall p: nat :: !world.panics(p)
    ensures verdict == Built <==> forall p: nat | p < PHASES && SourceOf(b, p) == Init :: world.fails(p).None?
    ensures forall p: nat | p < PHASES && SourceOf(b, p) == Init && world.fails(p).Some? ::
      (forall q: nat | q < p && SourceOf(b, q) == Init :: world.fails(q).None?)
      ==> verdict == Failed(world.fails(p).value)
  {
    forall p: nat | p < PHASES
      ensures Stops(b, world, p) <==> SourceOf(b, p) == Init && world.fails(p).Some?
    {
    }
    forall p: nat | p < PHASES && SourceOf(b, p) == Init && world.fails(p).Some?
      && forall q: nat | q < p && SourceOf(b, q) == Init :: world.fails(q).None?
      ensures verdict == Failed(world.fails(p).value)
    {
      assert FirstStop(b, world, p);
    }
  }

  lemma {:induction false} LeftIsQuiet(b: Builder, phase: nat)
    ensures forall a | a in LeftBefore(b, phase) :: a.Ran? || a.Took?
  {
    if phase > 0 {
      LeftIsQuiet(b, phase - 1);
    }
  }

  /** The log holds exactly the phases that ran or were given one, up to the point reached. */
  lemma {:induction false} LeftHas(b: Builder, phase: nat, k: nat)
    ensures Ran(k) in LeftBefore(b, phase) <==> k < phase && SourceOf(b, k) == Init
    ensures Took(k) in LeftBefore(b, phase) <==> k < phase && SourceOf(b, k) == Given
  {
    if phase > 0 {
      LeftHas(b, phase - 1, k);
    }
  }

  lemma {:induction false} SomeFirstStop(b: Builder, world: World, p: nat) returns (first: nat)
    requires p < PHASES && Stops(b, world, p)
    ensures FirstStop(b, world, first)
  {
    if q: nat :| q < p && Stops(b, world, q) {
      first := SomeFirstStop(b, world, q);
    } else {
      first := p;
    }
  }

  /**
   * Told from the verdict and the log alone: the telemetry is flushed exactly
   * once when Build returned an error and its phase had run or been given one,
   * with one line that says why; after a panic it never is, however present.
   */
  lemma FlushedIffFailed(b: Builder, world: World, verdict: Verdict, log: seq<Action>)
    requires IsAnswer(b, world, verdict, log)
    ensures multiset(log)[Flushed] ==
      if verdict.Failed? && (Ran(TELEMETRY) in log || Took(TELEMETRY) in log) then 1 else 0
    ensures Flushed in log ==> multiset(log)[ErrorLine] + multiset(log)[InfoLine] == 1
  {
    if verdict == Built {
      NothingFlushed(b, PHASES);
    } else {
      var p: nat :| p < PHASES && Stops(b, world, p);
      var first := SomeFirstStop(b, world, p);
      StoppedBuildFlushes(b, world, first);
      TelemetryIn(b, world, first);
    }
  }

  lemma NothingFlushed(b: Builder, phase: nat)
    ensures Flushed !in LeftBefore(b, phase) && multiset(LeftBefore(b, phase))[Flushed] == 0
  {
    LeftIsQuiet(b, phase);
  }

  lemma TelemetryIn(b: Builder, world: World, phase: nat)
    ensures var log := LeftBefore(b, phase) + Ending(b, world, phase);
      && (Ran(TELEMETRY) in log || Took(TELEMETRY) in log <==> phase > TELEMETRY && b.telemetry != Skipped)
      && (Flushed in log ==> phase > TELEMETRY && OutcomeOf(b, world, phase) != Panics)
  {
    LeftHas(b, phase, TELEMETRY);
    LeftIsQuiet(b, phase);
    EndingIsShort(b, world, phase);
  }

  lemma EndingIsShort(b: Builder, world: World, phase: nat)
    ensures forall a | a in Ending(b, world, phase) :: a == ErrorLine || a == InfoLine || a == Flushed
    ensures phase <= TELEMETRY || OutcomeOf(b, world, phase) == Panics ==> Ending(b, world, phase) == []
  {
  }

  /** The context only decides whether the line before the flush is an error's. */
  lemma StoppedBuildFlushes(b: Builder, world: World, phase: nat)
    requires FirstStop(b, world, phase)
    ensures var log := multiset(LeftBefore(b, phase) + Ending(b, world, phase));
      var said := phase > TELEMETRY && OutcomeOf(b, world, phase) != Panics;
      && log[Flushed] == (if said && b.telemetry != Skipped then 1 else 0)
      && log[ErrorLine] == (if said && !world.cancelled(phase) then 1 else 0)
      && log[InfoLine] == (if said && world.cancelled(phase) then 1 else 0)
  {
    LeftIsQuiet(b, phase);
    var (left, ending) := (LeftBefore(b, phase), Ending(b, world, phase));
    CountsEnding(left, ending, Flushed);
    CountsEnding(left, ending, ErrorLine);
    CountsEnding(left, ending, InfoLine);
    EndingCounts(b, world, phase);
  }

  lemma EndingCounts(b: Builder, world: World, phase: nat)
    ensures var log := multiset(Ending(b, world, phase));
      var said := phase > TELEMETRY && OutcomeOf(b, world, phase) != Panics;
      && log[Flushed] == (if said && b.telemetry != Skipped then 1 else 0)
      && log[ErrorLine] == (if said && !world.cancelled(phase) then 1 else 0)
      && log[InfoLine] == (if said && world.cancelled(phase) then 1 else 0)
  {
    var line := if world.cancelled(phase) then InfoLine else ErrorLine;
    var ending := Ending(b, world, phase);
    assert ending == [] || ending == [line] || ending == [line, Flushed];
  }

  lemma CountsEnding(left: seq<Action>, ending: seq<Action>, a: Action)
    requires a !in left
    ensures multiset(left + ending)[a] == multiset(ending)[a]
  {
    assert multiset(left + ending) == multiset(left) + multiset(ending);
    assert a !in multiset(left);
  }
}
