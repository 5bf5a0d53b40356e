/** What survives being written as K="V" lines of a .env file and loaded again. */
module EnvRoundTrip {
  import opened Wrappers
  import opened Strings
  import opened Utf8
  import opened EnvFile

  type Pair = (string, string)

  function PairLine(p: Pair): string {
    p.0 + "=\"" + p.1 + "\""
  }

  function FileOf(pairs: seq<Pair>): string {
    if pairs == [] then "" else PairLine(pairs[0]) + "\n" + FileOf(pairs[1..])
  }

  function PutAll(vars: Vars, pairs: seq<Pair>): Vars
    decreases |pairs|
  {
    if pairs == [] then vars else PutAll(vars[pairs[0].0 := pairs[0].1], pairs[1..])
  }

  // ----------------------------------------------------------------- one line

  predicate KeyCarried(key: string) {
    key != "" && Trimmed(IsSpace, key) && '=' !in key && '\0' !in key
  }

  predicate ValueCarried(value: string) {
    Trimmed(IsSpace, value) && Trimmed(IsQuote, value) && '\0' !in value
  }

  predicate Carried(p: Pair) {
    KeyCarried(p.0) && !IsComment(p.0) && ValueCarried(p.1) && ByteLen(PairLine(p)) < MAX_LINE
  }

  lemma {:induction false} OpeningCut(cut: char -> bool, v: string, q: char)
    requires cut(q)
    ensures TrimLeft(cut, v + [q]) == if TrimLeft(cut, v) == "" then "" else TrimLeft(cut, v) + [q]
  {
    if v == "" {
      assert v + [q] == [q] && [q][1..] == "";
    } else {
      assert (v + [q])[1..] == v[1..] + [q];
      OpeningCut(cut, v[1..], q);
    }
  }

  lemma ClosingCut(cut: char -> bool, l: string, q: char)
    requires cut(q)
    ensures TrimRight(cut, l + [q]) == TrimRight(cut, l)
  {
    assert (l + [q])[..|l|] == l;
  }

  /** Quotes put around a value are cut off again, with any the value itself has. */
  lemma QuotesCut(cut: char -> bool, v: string, q: char)
    requires cut(q)
    ensures Trim(cut, [q] + v + [q]) == Trim(cut, v)
  {
    assert ([q] + v + [q])[1..] == v + [q];
    assert TrimLeft(cut, [q] + v + [q]) == TrimLeft(cut, v + [q]);
    OpeningCut(cut, v, q);
    ClosingCut(cut, TrimLeft(cut, v), q);
  }

  lemma TrimShorter(cut: char -> bool, s: string)
    ensures |Trim(cut, s)| <= |s| && (|Trim(cut, s)| == |s| ==> Trim(cut, s) == s)
  {
  }

  lemma UnquotedIff(v: string)
    ensures Unquoted(v) == v <==> Trimmed(IsQuote, v) && Trimmed(IsSpace, v)
  {
    BothTrimmed(IsQuote, IsSpace, v);
  }

  lemma BothTrimmed(first: char -> bool, second: char -> bool, v: string)
    ensures Trim(second, Trim(first, v)) == v <==> Trimmed(first, v) && Trimmed(second, v)
  {
    TrimTrims(first, v);
    TrimTrims(second, v);
    TrimShorter(first, v);
    TrimShorter(second, Trim(first, v));
  }

  lemma PairCuts(p: Pair)
    requires '=' !in p.0
    ensures Cut(PairLine(p)) == Some((p.0, "\"" + p.1 + "\""))
  {
    var parts := [p.0, "\"" + p.1 + "\""];
    assert parts[1..] == [parts[1]];
    assert Join(parts, '=') == PairLine(p);
    SplitNJoin(parts, '=', PAIR);
  }

  lemma PairIsWhole(p: Pair)
    ensures DropCR(PairLine(p)) == PairLine(p)
    ensures p.0 != "" && !IsSpace(p.0[0]) ==> TrimSpace(PairLine(p)) == PairLine(p) != ""
    ensures p.0 != "" ==> (IsComment(PairLine(p)) <==> IsComment(p.0))
  {
    var line := PairLine(p);
    assert line[|line| - 1] == '"';
    TrimTrims(IsSpace, line);
    if p.0 != "" {
      assert line[0] == p.0[0] && line[1] == if |p.0| > 1 then p.0[1] else '=';
      StartsWithTwo(p.0);
      StartsWithTwo(line);
    }
  }

  lemma StartsWithTwo(s: string)
    requires s != ""
    ensures IsComment(s) <==> s[0] == '#' || (|s| > 1 && s[0] == '/' && s[1] == '/')
  {
    assert "#" <= s <==> s[0] == '#';
    if |s| > 1 {
      assert "//" <= s <==> s[..2] == "//";
    }
  }

  lemma QuotedReads(v: string)
    ensures Unquoted("\"" + v + "\"") == Unquoted(v)
  {
    QuotesCut(IsQuote, v, '"');
    assert ['"'] + v + ['"'] == "\"" + v + "\"";
  }

  lemma PairReads(p: Pair)
    requires KeyCarried(p.0)
    ensures ReadLine(PairLine(p)) == PairRead(p)
  {
    var line := PairLine(p);
    assert !IsComment(line) ==> ReadLine(line) == Some((p.0, Unquoted(p.1))) by {
      assert TrimSpace(line) == line != "" by { PairIsWhole(p); }
      assert Cut(line) == Some((p.0, "\"" + p.1 + "\"")) by { PairCuts(p); }
      assert TrimSpace(p.0) == p.0 by { TrimTrims(IsSpace, p.0); }
      QuotedReads(p.1);
    }
    PairIsWhole(p);
  }

  function PairRead(p: Pair): Option<(string, string)> {
    if IsComment(p.0) then None else Some((p.0, Unquoted(p.1)))
  }

  /** What the line of a pair with a sound key does. */
  lemma PairActs(p: Pair)
    requires KeyCarried(p.0)
    ensures Act(PairLine(p)) == ActOn(PairLine(p), PairRead(p))
  {
    assert DropCR(PairLine(p)) == PairLine(p) by { PairIsWhole(p); }
    assert ReadLine(PairLine(p)) == PairRead(p) by { PairReads(p); }
  }

  lemma CutParts(line: string)
    requires Cut(line).Some?
    ensures '=' !in Cut(line).value.0
    ensures forall c | c in Cut(line).value.0 || c in Cut(line).value.1 :: c in line
  {
    SplitNPieces(line, '=', PAIR);
    var parts := SplitN(line, '=', PAIR);
    assert parts[0] in parts && parts[1] in parts;
  }

  lemma ReadIsSound(line: string)
    requires ReadLine(line).Some?
    ensures var (key, value) := ReadLine(line).value;
      && Trimmed(IsSpace, key) && Trimmed(IsSpace, value)
      && forall c | c in key || c in value :: c in line
  {
    CutParts(TrimSpace(line));
  }

  /** Every pair a line assigns has a sound key, whatever the line. */
  lemma PutIsSound(raw: string)
    requires Act(raw).Put?
    ensures KeyCarried(Act(raw).key) && Trimmed(IsSpace, Act(raw).value) && '\0' !in Act(raw).value
    ensures forall c | c in Act(raw).key || c in Act(raw).value :: c in raw
  {
    ReadIsSound(DropCR(raw));
  }

  lemma ActsAsPair(p: Pair)
    requires KeyCarried(p.0)
    ensures ActOn(PairLine(p), PairRead(p)) == Put(p.0, p.1) <==> Carried(p)
  {
    UnquotedIff(p.1);
  }

  /** The line K="V" assigns V to K exactly for the pairs the format can carry. */
  lemma PairLineIff(p: Pair)
    ensures Act(PairLine(p)) == Put(p.0, p.1) <==> Carried(p)
  {
    assert Act(PairLine(p)) == Put(p.0, p.1) ==> KeyCarried(p.0) by {
      if Act(PairLine(p)) == Put(p.0, p.1) {
        PutIsSound(PairLine(p));
      }
    }
    if KeyCarried(p.0) {
      PairActs(p);
      ActsAsPair(p);
    }
  }

  /** Quotes are cut before spaces, so a quote that follows a blank stays in the value. */
  lemma BlankKeepsQuote(v: string)
    requires Trimmed(IsSpace, v) && Trimmed(IsQuote, v) && v != ""
    ensures Unquoted(" \"" + v + "\"") == "\"" + v
  {
    BlankKeepsOpening(IsQuote, IsSpace, v, ' ', '"');
    assert " \"" + v + "\"" == [' ', '"'] + v + ['"'];
  }

  lemma ClosingCutOnly(quote: char -> bool, inner: string, q: char)
    requires quote(q) && inner != "" && !quote(inner[0]) && !quote(inner[|inner| - 1])
    ensures Trim(quote, inner + [q]) == inner
  {
    assert TrimLeft(quote, inner + [q]) == inner + [q];
    ClosingCut(quote, inner, q);
  }

  lemma OpeningCutOnly(space: char -> bool, kept: string, b: char)
    requires space(b) && kept != "" && !space(kept[0]) && !space(kept[|kept| - 1])
    ensures Trim(space, [b] + kept) == kept
  {
    var s := [b] + kept;
    assert s[0] == b && s[1..] == kept;
    assert TrimLeft(space, s) == TrimLeft(space, s[1..]);
    assert TrimLeft(space, kept) == kept && TrimRight(space, kept) == kept;
  }

  lemma BlankKeepsOpening(quote: char -> bool, space: char -> bool, v: string, b: char, q: char)
    requires quote(q) && !quote(b) && space(b) && !space(q)
    requires Trimmed(space, v) && Trimmed(quote, v) && v != ""
    ensures Trim(space, Trim(quote, [b, q] + v + [q])) == [q] + v
  {
    var (inner, kept) := ([b, q] + v, [q] + v);
    assert inner == [b] + kept && inner[|inner| - 1] == kept[|kept| - 1] == v[|v| - 1];
    ClosingCutOnly(quote, inner, q);
    OpeningCutOnly(space, kept, b);
  }

  // ------------------------------------------------------------------ a file

  predicate OneLine(p: Pair) {
    '\n' !in p.0 && '\n' !in p.1
  }

  function PairLines(pairs: seq<Pair>): (r: seq<string>)
    ensures |r| == |pairs| && forall i | 0 <= i < |pairs| :: r[i] == PairLine(pairs[i])
  {
    seq(|pairs|, i requires 0 <= i < |pairs| => PairLine(pairs[i]))
  }

  lemma {:induction false} FileIsJoined(pairs: seq<Pair>)
    ensures FileOf(pairs) == Join(PairLines(pairs) + [""], '\n')
  {
    var parts := PairLines(pairs) + [""];
    if pairs == [] {
      assert parts == [""];
    } else {
      FileIsJoined(pairs[1..]);
      assert parts[1..] == PairLines(pairs[1..]) + [""];
    }
  }

  lemma FileLines(pairs: seq<Pair>)
    requires forall p | p in pairs :: OneLine(p)
    ensures Lines(FileOf(pairs)) == PairLines(pairs)
  {
    var parts := PairLines(pairs) + [""];
    FileIsJoined(pairs);
    forall s | s in parts ensures '\n' !in s {
      if s != "" {
        var i :| 0 <= i < |pairs| && s == PairLine(pairs[i]);
        assert pairs[i] in pairs;
      }
    }
    SplitJoin(parts, '\n');
    assert parts[..|parts| - 1] == PairLines(pairs);
  }

  lemma LinesAreLines(text: string)
    ensures forall raw | raw in Lines(text) :: '\n' !in raw
  {
    SplitPieces(text, '\n');
  }

  lemma {:induction false} RunPuts(vars: Vars, acts: seq<Action>, pairs: seq<Pair>)
    requires |acts| == |pairs| && forall i | 0 <= i < |pairs| :: acts[i] == Put(pairs[i].0, pairs[i].1)
    ensures Run(vars, acts) == Load(PutAll(vars, pairs), true)
    decreases |pairs|
  {
    if pairs != [] {
      RunPuts(vars[pairs[0].0 := pairs[0].1], acts[1..], pairs[1..]);
    }
  }

  predicate Writable(p: Pair) {
    Carried(p) && OneLine(p)
  }

  /** Writable pairs are restored over any environment, a later one of a key winning. */
  lemma FileRestores(vars: Vars, pairs: seq<Pair>)
    requires forall p | p in pairs :: Writable(p)
    ensures LoadText(vars, FileOf(pairs)) == Load(PutAll(vars, pairs), true)
  {
    FileLines(pairs);
    forall i | 0 <= i < |pairs| ensures Act(PairLine(pairs[i])) == Put(pairs[i].0, pairs[i].1) {
      assert pairs[i] in pairs;
      PairLineIff(pairs[i]);
    }
    RunPuts(vars, Acts(Act, PairLines(pairs)), pairs);
  }

  /** The lines of the pairs, each with a carriage return or without. */
  function EndedLines(pairs: seq<Pair>, cr: string): (r: seq<string>)
    ensures |r| == |pairs| && forall i | 0 <= i < |pairs| :: r[i] == PairLine(pairs[i]) + cr
  {
    seq(|pairs|, i requires 0 <= i < |pairs| => PairLine(pairs[i]) + cr)
  }

  lemma {:induction false} ByteLenAppended(s: string, c: char)
    ensures ByteLen(s + [c]) == ByteLen(s) + RuneLen(c)
  {
    if s == "" {
      assert s + [c] == [c] && [c][1..] == "";
    } else {
      assert (s + [c])[0] == s[0] && (s + [c])[1..] == s[1..] + [c];
      ByteLenAppended(s[1..], c);
    }
  }

  lemma EndedActs(p: Pair, cr: string)
    requires Carried(p) && (cr == "" || cr == "\r") && ByteLen(PairLine(p)) + |cr| < MAX_LINE
    ensures Act(PairLine(p) + cr) == Put(p.0, p.1)
  {
    var line := PairLine(p);
    PairReads(p);
    ActsAsPair(p);
    EndingDropped(line, cr) by { PairIsWhole(p); }
    SameActs(line, line + cr, PairRead(p));
  }

  lemma EndingDropped(line: string, cr: string)
    requires DropCR(line) == line && (cr == "" || cr == "\r")
    ensures DropCR(line + cr) == line && ByteLen(line + cr) == ByteLen(line) + |cr|
  {
    if cr == "" {
      assert line + cr == line;
    } else {
      ByteLenAppended(line, '\r');
      assert line + cr == line + ['\r'] && (line + cr)[..|line|] == line;
    }
  }

  /** Below the scanner's limit, what a line does depends on what is read from it alone. */
  lemma SameActs(line: string, raw: string, pair: Option<(string, string)>)
    requires ByteLen(line) < MAX_LINE && ByteLen(raw) < MAX_LINE
    requires DropCR(raw) == line && ReadLine(line) == pair
    ensures Act(raw) == ActOn(line, pair)
  {
  }

  /**
   * A file restores the pairs written to it with either line ending, and whether
   * or not its last line is ended.
   */
  lemma EveryEndingRestores(vars: Vars, pairs: seq<Pair>, cr: string)
    requires pairs != [] && forall p | p in pairs :: Writable(p) && ByteLen(PairLine(p)) + |cr| < MAX_LINE
    requires cr == "" || cr == "\r"
    ensures var text := Join(EndedLines(pairs, cr), '\n');
      LoadText(vars, text) == LoadText(vars, text + "\n") == Load(PutAll(vars, pairs), true)
  {
    var raws := EndedLines(pairs, cr);
    forall raw | raw in raws ensures '\n' !in raw {
      var i :| 0 <= i < |raws| && raws[i] == raw;
      assert pairs[i] in pairs;
    }
    LinesAreCut(raws);
    forall i | 0 <= i < |pairs| ensures Act(raws[i]) == Put(pairs[i].0, pairs[i].1) {
      assert pairs[i] in pairs;
      EndedActs(pairs[i], cr);
    }
    RunPuts(vars, Acts(Act, raws), pairs);
  }

  predicate DistinctKeys(pairs: seq<Pair>) {
    forall i, j | 0 <= i < j < |pairs| :: pairs[i].0 != pairs[j].0
  }

  lemma {:induction false} PutAllHolds(vars: Vars, pairs: seq<Pair>, key: string)
    ensures (forall p | p in pairs :: p.0 != key) ==> Lookup(PutAll(vars, pairs), key) == Lookup(vars, key)
    ensures forall i | 0 <= i < |pairs| && DistinctKeys(pairs) && pairs[i].0 == key ::
      Lookup(PutAll(vars, pairs), key) == Some(pairs[i].1)
    decreases |pairs|
  {
    if pairs != [] {
      PutAllHolds(vars[pairs[0].0 := pairs[0].1], pairs[1..], key);
      assert pairs == [pairs[0]] + pairs[1..];
    }
  }

  /** Some line of a file that restores the pairs assigns each of them. */
  lemma RestoredIsPut(acts: seq<Action>, pairs: seq<Pair>, i: nat) returns (j: int)
    requires DistinctKeys(pairs) && i < |pairs|
    requires Run(map[], acts) == Load(PutAll(map[], pairs), true)
    ensures 0 <= j < |acts| && acts[j] == Put(pairs[i].0, pairs[i].1)
  {
    var key := pairs[i].0;
    LoadMeansLast(map[], acts);
    assert HeldAfter(map[], acts, key);
    PutAllHolds(map[], pairs, key);
    LastPutIsLast(acts, key);
    j :| IsLastPut(acts, key, pairs[i].1, j);
  }

  lemma RestoredIsOneLine(pairs: seq<Pair>, i: nat)
    requires DistinctKeys(pairs) && i < |pairs|
    requires LoadText(map[], FileOf(pairs)) == Load(PutAll(map[], pairs), true)
    ensures OneLine(pairs[i]) && KeyCarried(pairs[i].0)
  {
    var raws := Lines(FileOf(pairs));
    var j := RestoredIsPut(Acts(Act, raws), pairs, i);
    LinesAreLines(FileOf(pairs));
    assert raws[j] in raws;
    PutIsSound(raws[j]);
  }

  lemma RestoredIsCarried(pairs: seq<Pair>, i: nat)
    requires DistinctKeys(pairs) && i < |pairs|
    requires forall p | p in pairs :: OneLine(p) && KeyCarried(p.0)
    requires LoadText(map[], FileOf(pairs)) == Load(PutAll(map[], pairs), true)
    ensures Carried(pairs[i])
  {
    FileLines(pairs);
    var acts := Acts(Act, PairLines(pairs));
    var j := RestoredIsPut(acts, pairs, i);
    assert pairs[j] in pairs && acts[j] == Act(PairLine(pairs[j]));
    PairActs(pairs[j]);
    assert j == i;
    PairLineIff(pairs[i]);
  }

  /** A list of pairs with distinct keys survives being written and loaded exactly when each pair is writable. */
  lemma FileRoundTripIff(pairs: seq<Pair>)
    requires DistinctKeys(pairs)
    ensures LoadText(map[], FileOf(pairs)) == Load(PutAll(map[], pairs), true) <==> forall p | p in pairs :: Writable(p)
  {
    if LoadText(map[], FileOf(pairs)) == Load(PutAll(map[], pairs), true) {
      forall i: nat | i < |pairs| ensures OneLine(pairs[i]) && KeyCarried(pairs[i].0) {
        RestoredIsOneLine(pairs, i);
      }
      forall i: nat | i < |pairs| ensures Carried(pairs[i]) {
        RestoredIsCarried(pairs, i);
      }
    }
    if forall p | p in pairs :: Writable(p) {
      FileRestores(map[], pairs);
    }
  }
}
