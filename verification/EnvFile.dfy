/**
 * The .env file: how its text is cut into lines, what each line does, and the
 * process environment the assignments are folded into.
 */
module EnvFile {
  import opened Wrappers
  import opened Strings
  import opened Utf8

  type Vars = map<string, string>

  /** bufio.MaxScanTokenSize: a line must fit the scanner's buffer. */
  const MAX_LINE: nat := 65536

  const PAIR: nat := 2

  // -------------------------------------------------------------------- lines

  predicate IsComment(line: string) {
    "#" <= line || "//" <= line
  }

  /** The two sides of the first '='. */
  function Cut(line: string): Option<(string, string)> {
    var parts := SplitN(line, '=', PAIR);
    if |parts| == 2 then Some((parts[0], parts[1])) else None
  }

  /** Quotes are cut from a value before spaces. */
  function Unquoted(value: string): string {
    TrimSpace(Trim(IsQuote, value))
  }

  /** A key and a value, or None for a line the loader skips. */
  function ReadLine(line: string): Option<(string, string)> {
    if IsComment(line) || TrimSpace(line) == "" then None
    else
      match Cut(TrimSpace(line))
      case None => None
      case Some((key, value)) => Some((TrimSpace(key), Unquoted(value)))
  }

  /** os.Setenv accepts the pair. */
  predicate Settable(key: string, value: string) {
    key != "" && '=' !in key && '\0' !in key && '\0' !in value
  }

  function DropCR(raw: string): string {
    if raw != "" && raw[|raw| - 1] == '\r' then raw[..|raw| - 1] else raw
  }

  /** What one line does to a load. */
  datatype Action = Pass | Put(key: string, value: string) | Stop

  /** `raw` still has its carriage return. */
  function Act(raw: string): Action {
    ActOn(raw, ReadLine(DropCR(raw)))
  }

  function ActOn(raw: string, pair: Option<(string, string)>): Action {
    if ByteLen(raw) >= MAX_LINE then Stop
    else
      match pair
      case None => Pass
      case Some((key, value)) => if Settable(key, value) then Put(key, value) else Stop
  }

  /** What each of a file's lines does; `act` is always Act, kept abstract for the proofs. */
  function Acts(act: string -> Action, raws: seq<string>): (acts: seq<Action>)
    ensures |acts| == |raws| && forall i | 0 <= i < |raws| :: acts[i] == act(raws[i])
  {
    seq(|raws|, i requires 0 <= i < |raws| => act(raws[i]))
  }

  // --------------------------------------------------------------------- loads

  /** The environment after a load, and whether the load succeeded. */
  datatype Load = Load(vars: Vars, ok: bool)

  function Run(vars: Vars, acts: seq<Action>): Load
    decreases |acts|
  {
    if acts == [] then Load(vars, true)
    else
      match acts[0]
      case Pass => Run(vars, acts[1..])
      case Put(key, value) => Run(vars[key := value], acts[1..])
      case Stop => Load(vars, false)
  }

  /** bufio.ScanLines: the pieces between line feeds; an empty last piece is no line. */
  function Lines(text: string): seq<string> {
    var parts := Split(text, '\n');
    if parts[|parts| - 1] == "" then parts[..|parts| - 1] else parts
  }

  /**
   * Whatever the lines, blank ones included, a text that ends each with a line
   * feed is cut into exactly them, and so is one whose last line is not ended,
   * unless nothing is on it.
   */
  lemma LinesAreCut(raws: seq<string>)
    requires raws != [] && forall raw | raw in raws :: '\n' !in raw
    ensures Lines(Join(raws, '\n') + "\n") == raws
    ensures Lines(Join(raws, '\n')) == if raws[|raws| - 1] == "" then raws[..|raws| - 1] else raws
  {
    SplitJoin(raws, '\n');
    LinesOfPieces(Join(raws, '\n'), raws);
    assert Split(Join(raws, '\n') + "\n", '\n') == raws + [""] by {
      JoinEnded(raws, '\n');
      SplitJoin(raws + [""], '\n');
    }
    LinesOfPieces(Join(raws, '\n') + "\n", raws + [""]);
    assert (raws + [""])[..|raws|] == raws;
  }

  lemma LinesOfPieces(text: string, parts: seq<string>)
    requires parts != [] && Split(text, '\n') == parts
    ensures Lines(text) == if parts[|parts| - 1] == "" then parts[..|parts| - 1] else parts
  {
  }

  lemma {:induction false} JoinEnded(parts: seq<string>, c: char)
    requires parts != []
    ensures Join(parts + [""], c) == Join(parts, c) + [c]
  {
    var rest := parts[1..];
    assert parts == [parts[0]] + rest;
    if rest == [] {
      assert parts + [""] == [parts[0]] + [""];
      JoinCons(parts[0], [""], c);
      JoinOne("", c);
      JoinOne(parts[0], c);
    } else {
      JoinEnded(rest, c);
      assert parts + [""] == [parts[0]] + (rest + [""]);
      JoinCons(parts[0], rest, c);
      JoinCons(parts[0], rest + [""], c);
    }
  }

  function LoadText(vars: Vars, text: string): Load {
    Run(vars, Acts(Act, Lines(text)))
  }

  /** The *.env files of the working directory; None is one that cannot be opened. */
  function LoadFiles(vars: Vars, files: seq<Option<string>>): Load {
    if files == [] then Load(vars, true)
    else if |files| > 1 || files[0].None? then Load(vars, false)
    else LoadText(vars, files[0].value)
  }

  /** The process environment. */
  class Environment {
    var vars: Vars

    constructor (vars: Vars)
      ensures this.vars == vars
    {
      this.vars := vars;
    }

    method Setenv(key: string, value: string) returns (ok: bool)
      modifies this
      ensures ok == Settable(key, value)
      ensures vars == if ok then old(vars)[key := value] else old(vars)
    {
      ok := Settable(key, value);
      if ok {
        vars := vars[key := value];
      }
    }

    /** One line of the file; false when it ends the load. */
    method SetFromLine(raw: string) returns (ok: bool)
      modifies this
      ensures ok <==> Act(raw) != Stop
      ensures vars == if Act(raw).Put? then old(vars)[Act(raw).key := Act(raw).value] else old(vars)
    {
      if ByteLen(raw) >= MAX_LINE {
        return false;
      }
      var pair := Parse(DropCR(raw));
      if pair.None? {
        return true;
      }
      ok := Setenv(pair.value.0, pair.value.1);
    }

    method Parse(line: string) returns (pair: Option<(string, string)>)
      ensures pair == ReadLine(line)
    {
      var trimmed := TrimSpace(line);
      if IsComment(line) || trimmed == "" {
        return None;
      }
      var parts := SplitN(trimmed, '=', PAIR);
      PairOf(line, trimmed, parts);
      if |parts| != 2 {
        return None;
      }
      pair := Some((TrimSpace(parts[0]), TrimSpace(Trim(IsQuote, parts[1]))));
    }

    method SetEnvVarFromFile(files: seq<Option<string>>) returns (ok: bool)
      modifies this
      ensures Load(vars, ok) == LoadFiles(old(vars), files)
      ensures files == [] ==> ok && vars == old(vars)
      ensures |files| > 1 || None in files ==> !ok && vars == old(vars)
    {
      if |files| > 1 {
        return false;
      }
      if files == [] {
        return true;
      }
      if files[0].None? {
        return false;
      }
      var raws := Lines(files[0].value);
      ghost var acts := Acts(Act, raws);
      var i := 0;
      while i < |raws|
        invariant i <= |raws|
        invariant Run(old(vars), acts) == Run(vars, acts[i..])
      {
        RunFrom(vars, acts, i);
        var read := SetFromLine(raws[i]);
        if !read {
          return false;
        }
        i := i + 1;
      }
      ok := true;
    }
  }

  lemma RunFrom(vars: Vars, acts: seq<Action>, i: nat)
    requires i < |acts|
    ensures Run(vars, acts[i..]) ==
      match acts[i]
      case Pass => Run(vars, acts[i + 1..])
      case Put(key, value) => Run(vars[key := value], acts[i + 1..])
      case Stop => Load(vars, false)
  {
    assert acts[i..][0] == acts[i] && acts[i..][1..] == acts[i + 1..];
  }

  lemma PairOf(line: string, trimmed: string, parts: seq<string>)
    requires !IsComment(line) && trimmed == TrimSpace(line) && trimmed != "" && parts == SplitN(trimmed, '=', PAIR)
    ensures ReadLine(line) ==
      if |parts| != 2 then None else Some((TrimSpace(parts[0]), TrimSpace(Trim(IsQuote, parts[1]))))
  {
  }

  // --------------------------------------------------------- what a load means

  /** os.LookupEnv. */
  function Lookup(vars: Vars, key: string): Option<string> {
    if key in vars then Some(vars[key]) else None
  }

  /** The value the last assignment of a key gives it. */
  function LastPut(acts: seq<Action>, key: string): Option<string> {
    if acts == [] then None
    else
      var rest := LastPut(acts[1..], key);
      if rest.Some? then rest
      else if acts[0].Put? && acts[0].key == key then Some(acts[0].value)
      else None
  }

  predicate HeldAfter(vars: Vars, acts: seq<Action>, key: string) {
    Lookup(Run(vars, acts).vars, key) == if LastPut(acts, key).Some? then LastPut(acts, key) else Lookup(vars, key)
  }

  /**
   * A load succeeds exactly when no line stops it; then every key holds the
   * value of its last assignment in the file, and every other key what it had.
   */
  lemma {:induction false} LoadMeansLast(vars: Vars, acts: seq<Action>)
    ensures Run(vars, acts).ok <==> Stop !in acts
    ensures Run(vars, acts).ok ==> forall key :: HeldAfter(vars, acts, key)
    decreases |acts|
  {
    if acts != [] && acts[0] != Stop {
      var next := if acts[0].Put? then vars[acts[0].key := acts[0].value] else vars;
      LoadMeansLast(next, acts[1..]);
      assert acts == [acts[0]] + acts[1..];
      if Run(vars, acts).ok {
        forall key ensures HeldAfter(vars, acts, key) {
          assert HeldAfter(next, acts[1..], key);
        }
      }
    }
  }

  /** LastPut is what its name says: some line assigns the value and no later line assigns the key. */
  lemma {:induction false} LastPutIsLast(acts: seq<Action>, key: string)
    ensures forall i | 0 <= i < |acts| && acts[i].Put? && acts[i].key == key :: LastPut(acts, key).Some?
    ensures LastPut(acts, key).Some? ==>
      exists i :: IsLastPut(acts, key, LastPut(acts, key).value, i)
  {
    if acts != [] {
      LastPutIsLast(acts[1..], key);
      if LastPut(acts[1..], key).Some? {
        var i :| IsLastPut(acts[1..], key, LastPut(acts, key).value, i);
        assert forall j | i + 1 < j < |acts| :: acts[j] == acts[1..][j - 1];
        assert IsLastPut(acts, key, LastPut(acts, key).value, i + 1);
      } else if acts[0].Put? && acts[0].key == key {
        assert forall j | 0 < j < |acts| :: acts[j] == acts[1..][j - 1];
        assert IsLastPut(acts, key, acts[0].value, 0);
      }
      assert forall i | 0 < i < |acts| :: acts[i] == acts[1..][i - 1];
    }
  }

  predicate IsLastPut(acts: seq<Action>, key: string, value: string, i: int) {
    && 0 <= i < |acts| && acts[i] == Put(key, value)
    && forall j | i < j < |acts| :: acts[j].Put? ==> acts[j].key != key
  }

  lemma {:induction false} RunAppended(vars: Vars, a: seq<Action>, b: seq<Action>)
    ensures var first := Run(vars, a);
      Run(vars, a + b) == if first.ok then Run(first.vars, b) else first
    decreases |a|
  {
    if a == [] {
      assert a + b == b;
    } else {
      assert (a + b)[1..] == a[1..] + b && (a + b)[0] == a[0];
      var next := if a[0].Put? then vars[a[0].key := a[0].value] else vars;
      RunAppended(next, a[1..], b);
    }
  }

  /** A failed load leaves the assignments of the lines before the one that stopped it. */
  lemma FailedLoadKeepsPrefix(vars: Vars, acts: seq<Action>, i: nat)
    requires i < |acts| && acts[i] == Stop && Stop !in acts[..i]
    ensures Run(vars, acts[..i]).ok && Run(vars, acts) == Load(Run(vars, acts[..i]).vars, false)
  {
    LoadMeansLast(vars, acts[..i]);
    assert acts == acts[..i] + acts[i..];
    RunAppended(vars, acts[..i], acts[i..]);
  }

  ghost predicate AddsNothing(act: string -> Action, raw: string, vars: Vars, a: seq<string>, b: seq<string>) {
    Run(vars, Acts(act, a + [raw] + b)) == Run(vars, Acts(act, a + b))
  }

  predicate PassedOver(raw: string) {
    ByteLen(raw) < 64 * 1024 && (IsComment(DropCR(raw)) || '=' !in DropCR(raw))
  }

  /**
   * A line can be added anywhere in any file without effect exactly when it is
   * short enough and a comment or without '='; blank lines are of the second kind.
   */
  lemma AddsNothingIff(raw: string)
    ensures PassedOver(raw) <==> forall vars, a, b :: AddsNothing(Act, raw, vars, a, b)
  {
    PassesIff(raw);
    PassAddsNothingIff(Act, raw);
  }

  lemma PassAddsNothingIff(act: string -> Action, raw: string)
    ensures act(raw) == Pass <==> forall vars, a, b :: AddsNothing(act, raw, vars, a, b)
  {
    if act(raw) == Pass {
      forall vars, a, b ensures AddsNothing(act, raw, vars, a, b) {
        assert Acts(act, a + [raw] + b) == Acts(act, a) + ([Pass] + Acts(act, b));
        assert Acts(act, a + b) == Acts(act, a) + Acts(act, b);
        PassAdds(vars, Acts(act, a), Acts(act, b));
      }
    } else {
      assert Acts(act, [] + [raw] + []) == [act(raw)] && Acts(act, [] + []) == [];
      OnlyPassAddsNothing(act(raw));
      assert !AddsNothing(act, raw, map[], [], []);
    }
  }

  lemma PassAdds(vars: Vars, a: seq<Action>, b: seq<Action>)
    ensures Run(vars, a + ([Pass] + b)) == Run(vars, a + b)
  {
    RunAppended(vars, a, [Pass] + b);
    RunAppended(vars, a, b);
    assert ([Pass] + b)[1..] == b;
  }

  lemma OnlyPassAddsNothing(act: Action)
    requires act != Pass
    ensures Run(map[], [act]) != Run(map[], [])
  {
    assert [act][1..] == [];
    var none: Vars := map[];
    if act.Put? {
      assert act.key in none[act.key := act.value];
      assert Run(none, [act]) == Load(none[act.key := act.value], true);
    }
  }

  lemma CutIff(line: string)
    ensures Cut(line).Some? <==> '=' in line
  {
    SplitNFull(line, '=', PAIR);
    CountAbsent(line, '=');
  }

  lemma ReadIff(line: string)
    ensures ReadLine(line).None? <==> IsComment(line) || '=' !in line
  {
    TrimKeepsIff(line, '=');
    ReadIffCut(line, TrimSpace(line));
  }

  lemma ReadIffCut(line: string, trimmed: string)
    requires trimmed == TrimSpace(line)
    ensures ReadLine(line).None? <==> IsComment(line) || '=' !in trimmed
  {
    CutIff(trimmed);
  }

  lemma TrimKeepsIff(s: string, c: char)
    requires !IsSpace(c)
    ensures c in TrimSpace(s) <==> c in s
  {
    if c in s {
      TrimKeeps(s, c);
    }
  }

  lemma PassesIff(raw: string)
    ensures Act(raw) == Pass <==> PassedOver(raw)
  {
    ReadIff(DropCR(raw));
    ActOnPasses(raw, ReadLine(DropCR(raw)));
  }

  lemma ActOnPasses(raw: string, pair: Option<(string, string)>)
    ensures ActOn(raw, pair) == Pass <==> ByteLen(raw) < MAX_LINE && pair.None?
  {
  }

  /** Trimming spaces cannot lose any other character. */
  lemma TrimKeeps(s: string, c: char)
    requires !IsSpace(c) && c in s
    ensures c in TrimSpace(s)
  {
    TrimLeftKeeps(IsSpace, s, c);
    TrimRightKeeps(IsSpace, TrimLeft(IsSpace, s), c);
  }

  lemma {:induction false} TrimLeftKeeps(cut: char -> bool, s: string, c: char)
    requires !cut(c) && c in s
    ensures c in TrimLeft(cut, s)
  {
    if cut(s[0]) {
      TrimLeftKeeps(cut, s[1..], c);
    }
  }

  lemma {:induction false} TrimRightKeeps(cut: char -> bool, s: string, c: char)
    requires !cut(c) && c in s
    ensures c in TrimRight(cut, s)
  {
    if cut(s[|s| - 1]) {
      TrimRightKeeps(cut, s[..|s| - 1], c);
    }
  }
}
