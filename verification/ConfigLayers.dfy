/**
 * How one setting gets its value: the command line first, the -debug rewrite,
 * then the .env file folded into the process environment, then that environment
 * read over every field.
 */
module ConfigLayers {
  import opened Wrappers
  import opened ConfigLists
  import opened EnvFile
  import opened Strings

  /** A field's value; `kind` tells the parsed scalar types (int, duration, bool, ...) apart. */
  datatype Setting = Text(text: string) | Providers(list: seq<IDP>) | Scalar(kind: nat, number: int)

  datatype Field = Field(name: string, value: Setting)

  /** strconv and time: the parsers of the scalar kinds. */
  type Parsers = (nat, string) -> Option<int>

  /** The value of the default's type that the text spells, if it spells one. */
  function Spelt(parsers: Parsers, raw: string, like: Setting): Option<Setting> {
    match like
    case Text(_) => Some(Text(raw))
    case Providers(_) => if SetOf(raw).ok then Some(Providers(SetOf(raw).entries)) else None
    case Scalar(kind, _) =>
      match parsers(kind, raw)
      case None => None
      case Some(n) => Some(Scalar(kind, n))
  }

  function GetEnv(parsers: Parsers, vars: Vars, name: string, default: Setting): Setting {
    if name !in vars then default
    else
      match Spelt(parsers, vars[name], default)
      case None => default
      case Some(v) => v
  }

  /**
   * Kind by kind: a text is taken as it is; providers are those of the pieces, if
   * each has its five hashes; a scalar what its parser makes of it; and what does
   * not parse, or is not there, leaves the value there was.
   */
  lemma ReadAs(parsers: Parsers, vars: Vars, name: string, was: Setting)
    ensures name !in vars ==> GetEnv(parsers, vars, name, was) == was
    ensures name in vars && was.Text? ==> GetEnv(parsers, vars, name, was) == Text(vars[name])
    ensures name in vars && was.Scalar? ==>
      var n := parsers(was.kind, vars[name]);
      GetEnv(parsers, vars, name, was) == if n.Some? then Scalar(was.kind, n.value) else was
    ensures name in vars && was.Providers? ==>
      var (got, parts) := (GetEnv(parsers, vars, name, was), Split(vars[name], ','));
      if exists p :: p in parts && Count(p, '#') < 5 then got == was
      else
        && got.Providers? && |got.list| == |parts|
        && forall i | 0 <= i < |parts| :: ParseIDP(parts[i]) == Some(got.list[i])
  {
    if name in vars && was.Providers? {
      ProvidersReadAs(vars[name]);
    }
  }

  lemma ProvidersReadAs(raw: string)
    ensures var (read, parts) := (SetOf(raw), Split(raw, ','));
      if exists p :: p in parts && Count(p, '#') < 5 then !read.ok
      else
        && read.ok && |read.entries| == |parts|
        && forall i | 0 <= i < |parts| :: ParseIDP(parts[i]) == Some(read.entries[i])
  {
    SetSucceedsIff(raw);
    if SetOf(raw).ok {
      SetReadsEach(raw);
    }
  }

  function Parsed(parsers: Parsers, vars: Vars, fields: seq<Field>): (r: seq<Field>)
    ensures |r| == |fields|
    ensures forall i | 0 <= i < |fields| ::
      r[i] == Field(fields[i].name, GetEnv(parsers, vars, fields[i].name, fields[i].value))
  {
    seq(|fields|, i requires 0 <= i < |fields| =>
      Field(fields[i].name, GetEnv(parsers, vars, fields[i].name, fields[i].value)))
  }

  lemma ReadOne(fields: seq<Field>, read: seq<Field>, was: seq<Field>, i: nat, f: Field)
    requires i < |fields| == |read| == |was| && f == read[i]
    requires fields[..i] == read[..i] && fields[i..] == was[i..]
    ensures var next := fields[i := f]; next[..i + 1] == read[..i + 1] && next[i + 1..] == was[i + 1..]
  {
    var next := fields[i := f];
    assert next[..i + 1] == fields[..i] + [f] && read[..i + 1] == read[..i] + [read[i]];
    assert next[i + 1..] == fields[i..][1..] && was[i + 1..] == was[i..][1..];
  }

  /** The flags that are handled before the environment is looked at. */
  datatype Flags = Flags(version: bool, help: bool, debug: bool)

  /** Where the log level is among the fields. */
  const LEVEL: nat := 0

  /** The fields as the command line left them, after the -debug rewrite; None when -help ends the load. */
  function Flagged(flags: Flags, fields: seq<Field>): Option<seq<Field>>
    requires LEVEL < |fields|
  {
    if flags.version then Some(fields)
    else if flags.help then None
    else if flags.debug then Some(fields[LEVEL := fields[LEVEL].(value := Text("debug"))])
    else Some(fields)
  }

  class Configs {
    const parsers: Parsers
    const flags: Flags
    var fields: seq<Field>

    constructor (parsers: Parsers, flags: Flags, fields: seq<Field>)
      ensures this.parsers == parsers && this.flags == flags && this.fields == fields
    {
      this.parsers, this.flags, this.fields := parsers, flags, fields;
    }

    method HandleSpecialFlags() returns (ok: bool)
      requires LEVEL < |fields|
      modifies this
      ensures ok <==> flags.version || !flags.help
      ensures ok == Flagged(flags, old(fields)).Some?
      ensures |fields| == |old(fields)| && forall i | 0 <= i < |fields| && i != LEVEL :: fields[i] == old(fields)[i]
      ensures fields[LEVEL].name == old(fields)[LEVEL].name
      ensures fields[LEVEL].value ==
        if flags.debug && !flags.version && !flags.help then Text("debug") else old(fields)[LEVEL].value
      ensures fields == if ok then Flagged(flags, old(fields)).value else old(fields)
    {
      if flags.version {
        return true;
      }
      if flags.help {
        return false;
      }
      if flags.debug {
        fields := fields[LEVEL := fields[LEVEL].(value := Text("debug"))];
      }
      ok := true;
    }

    method ParseEnvVars(env: Environment)
      modifies this
      ensures fields == Parsed(parsers, env.vars, old(fields))
    {
      ghost var (was, read) := (fields, Parsed(parsers, env.vars, fields));
      var i := 0;
      while i < |fields|
        invariant i <= |fields| == |was|
        invariant fields[..i] == read[..i] && fields[i..] == was[i..]
      {
        assert fields[i] == was[i] by {
          assert fields[i] == fields[i..][0] && was[i] == was[i..][0];
        }
        var f := fields[i];
        var value := GetEnv(parsers, env.vars, f.name, f.value);
        ReadOne(fields, read, was, i, Field(f.name, value));
        fields := fields[i := Field(f.name, value)];
        i := i + 1;
      }
    }

    /** LoadConfigs up to validation. */
    method LoadConfigs(env: Environment, files: seq<Option<string>>) returns (ok: bool)
      requires LEVEL < |fields|
      modifies this, env
      ensures var start := Flagged(flags, old(fields));
        var load := if start.Some? then LoadFiles(old(env.vars), files) else Load(old(env.vars), false);
        && ok == load.ok && env.vars == load.vars
        && (ok ==> fields == Parsed(parsers, load.vars, start.value))
    {
      ok := HandleSpecialFlags();
      if !ok {
        return;
      }
      ok := env.SetEnvVarFromFile(files);
      if !ok {
        return;
      }
      ParseEnvVars(env);
    }
  }

  // ---------------------------------------------------------------- layering

  /** What the .env file says of a name: its last assignment, when there is a file and it has one. */
  function DotEnv(files: seq<Option<string>>, name: string): Option<string> {
    if |files| == 1 && files[0].Some? then LastPut(Acts(Act, Lines(files[0].value)), name) else None
  }

  /**
   * The .env file's value if the name is assigned there, else the process
   * environment's if it has one, and then only if it parses: a value that does
   * not parse gives the flag's, not the next layer's.
   */
  lemma Layering(parsers: Parsers, vars: Vars, files: seq<Option<string>>, name: string, flagged: Setting)
    requires LoadFiles(vars, files).ok
    ensures
      var got := GetEnv(parsers, LoadFiles(vars, files).vars, name, flagged);
      var (file, process) := (DotEnv(files, name), Lookup(vars, name));
      && (file.Some? && Spelt(parsers, file.value, flagged).Some? ==> Some(got) == Spelt(parsers, file.value, flagged))
      && (file.Some? && Spelt(parsers, file.value, flagged).None? ==> got == flagged)
      && (file.None? && process.Some? && Spelt(parsers, process.value, flagged).Some? ==>
            Some(got) == Spelt(parsers, process.value, flagged))
      && (file.None? && process.Some? && Spelt(parsers, process.value, flagged).None? ==> got == flagged)
      && (file.None? && process.None? ==> got == flagged)
  {
    HeldByLayer(vars, files, name);
  }

  lemma HeldByLayer(vars: Vars, files: seq<Option<string>>, name: string)
    requires LoadFiles(vars, files).ok
    ensures Lookup(LoadFiles(vars, files).vars, name) ==
      if DotEnv(files, name).Some? then DotEnv(files, name) else Lookup(vars, name)
  {
    if files != [] {
      var acts := Acts(Act, Lines(files[0].value));
      LoadMeansLast(vars, acts);
      assert HeldAfter(vars, acts, name);
    }
  }

  /**
   * A variable reaches only the fields of its own name.  So DEBUG never changes
   * the log level, although its description calls it a shorthand for it: only
   * the flag does, and only when neither the file nor the process sets LOG_LEVEL.
   */
  lemma OnlyItsOwnField(
    parsers: Parsers, vars: Vars, name: string, value: string, files: seq<Option<string>>, fields: seq<Field>, i: nat)
    requires LoadFiles(vars, files).ok && i < |fields| && fields[i].name != name
    ensures LoadFiles(vars[name := value], files).ok
    ensures Parsed(parsers, LoadFiles(vars, files).vars, fields)[i]
         == Parsed(parsers, LoadFiles(vars[name := value], files).vars, fields)[i]
  {
    if files != [] {
      var acts := Acts(Act, Lines(files[0].value));
      LoadMeansLast(vars, acts);
      LoadMeansLast(vars[name := value], acts);
    }
    HeldByLayer(vars, files, fields[i].name);
    HeldByLayer(vars[name := value], files, fields[i].name);
  }

  lemma DebugFlagIff(
    parsers: Parsers, flags: Flags, vars: Vars, files: seq<Option<string>>, fields: seq<Field>)
    requires LEVEL < |fields| && fields[LEVEL].value.Text? && fields[LEVEL].value != Text("debug")
    requires LoadFiles(vars, files).ok && Flagged(flags, fields).Some?
    ensures
      var (name, start) := (fields[LEVEL].name, Flagged(flags, fields).value);
      var layer := if DotEnv(files, name).Some? then DotEnv(files, name) else Lookup(vars, name);
      Parsed(parsers, LoadFiles(vars, files).vars, start)[LEVEL].value == Text("debug") <==>
        if layer.Some? then layer.value == "debug" else flags.debug && !flags.version
  {
    HeldByLayer(vars, files, fields[LEVEL].name);
  }
}
