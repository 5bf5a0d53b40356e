/**
 * The generator of the endpoint migration: it walks the operations of a swagger
 * specification in an order the language does not fix, sorts the records and
 * prints them as padded SQL rows.
 *
 * Strings are sequences of Unicode scalar values: the decoder only ever yields
 * valid UTF-8, on which comparing bytes and comparing scalar values agree.
 * Widths are byte lengths, as `len` gives them; padding counts runes, as
 * `%-*s` does.
 */
module ApiEndpoints {
  import opened Wrappers
  import opened SqlReader

  // ------------------------------------------------------------------ quoting

  /** strings.ReplaceAll(value, "'", "''"). */
  function Doubled(s: string): string {
    if s == "" then ""
    else (if s[0] == '\'' then "''" else [s[0]]) + Doubled(s[1..])
  }

  function SqlQuote(value: string): string {
    "'" + Doubled(value) + "'"
  }

  /** A quoted value reads back as itself, whatever follows it but another quote. */
  lemma {:induction false} QuoteReads(s: string, rest: string)
    requires rest != "" ==> rest[0] != '\''
    ensures ReadBody(Doubled(s) + "'" + rest) == Some((s, rest))
  {
    var text := Doubled(s) + "'" + rest;
    if s == "" {
      assert text == "'" + rest && text[1..] == rest;
    } else {
      QuoteReads(s[1..], rest);
      var tail := Doubled(s[1..]) + "'" + rest;
      if s[0] == '\'' {
        assert text == "''" + tail && text[2..] == tail;
      } else {
        assert text == [s[0]] + tail && text[1..] == tail;
      }
      assert [s[0]] + s[1..] == s;
    }
  }

  lemma QuoteInjective(a: string, b: string)
    requires SqlQuote(a) == SqlQuote(b)
    ensures a == b
  {
    QuoteReads(a, "");
    QuoteReads(b, "");
    assert SqlQuote(a)[1..] == Doubled(a) + "'" + "";
    assert SqlQuote(b)[1..] == Doubled(b) + "'" + "";
  }

  // ----------------------------------------------------------------- printing

  /** The raw fields of one operation. */
  datatype Row = Row(id: string, summary: string, description: string, verb: string, path: string)

  /** What the generator keeps: every field but System is already quoted. */
  datatype Record = Record(id: string, summary: string, description: string, verb: string, path: string, system: string)

  datatype Widths = Widths(id: nat, summary: nat, description: nat, verb: nat, path: nat, system: nat)

  function Quoted(r: Row): Record {
    Record(SqlQuote(r.id), SqlQuote(r.summary), SqlQuote(r.description), SqlQuote(r.verb), SqlQuote(r.path), "TRUE")
  }

  function QuotedAll(rows: seq<Row>): (q: seq<Record>)
    ensures |q| == |rows|
    ensures forall i | 0 <= i < |q| :: q[i] == Quoted(rows[i])
  {
    seq(|rows|, i requires 0 <= i < |rows| => Quoted(rows[i]))
  }

  function Spaces(n: int): (s: string)
    ensures |s| == if n < 0 then 0 else n
    ensures forall i | 0 <= i < |s| :: s[i] == ' '
  {
    seq(if n < 0 then 0 else n, _ => ' ')
  }

  /** `%-*s`: left-justified, padded on the right, never truncated. */
  function Pad(width: nat, s: string): string {
    s + Spaces(width - |s|)
  }

  /** The six padded cells between the parentheses. */
  function Cells(w: Widths, r: Record): seq<string> {
    [Pad(w.id, r.id), Pad(w.summary, r.summary), Pad(w.description, r.description),
     Pad(w.verb, r.verb), Pad(w.path, r.path), Pad(w.system, r.system)]
  }

  function Joined(cells: seq<string>): string
    requires cells != []
  {
    if |cells| == 1 then cells[0] else cells[0] + ", " + Joined(cells[1..])
  }

  function PrintRow(w: Widths, r: Record, last: bool): string {
    "(" + Joined(Cells(w, r)) + (if last then ");\n" else "),\n")
  }

  function Print(w: Widths, records: seq<Record>): string {
    if records == [] then ""
    else PrintRow(w, records[0], |records| == 1) + Print(w, records[1..])
  }

  // -------------------------------------------------------- print, then parse

  function ValuesOf(r: Row): seq<Value> {
    [Text(r.id), Text(r.summary), Text(r.description), Text(r.verb), Text(r.path), Word("TRUE")]
  }

  function AllValues(rows: seq<Row>): seq<seq<Value>> {
    if rows == [] then [] else [ValuesOf(rows[0])] + AllValues(rows[1..])
  }

  lemma {:induction false} SkipsSpaces(pad: string, rest: string)
    requires forall i | 0 <= i < |pad| :: pad[i] == ' '
    requires rest != "" ==> !IsSpace(rest[0])
    ensures SkipSpace(pad + rest) == rest
  {
    if pad == "" {
      assert pad + rest == rest;
    } else {
      assert (pad + rest)[1..] == pad[1..] + rest;
      SkipsSpaces(pad[1..], rest);
    }
  }

  /** The cell holds exactly this value, possibly padded. */
  ghost predicate Holds(cell: string, v: Value) {
    match v
    case Text(t) => exists w: nat :: cell == Pad(w, SqlQuote(t))
    case Word(t) => t == "TRUE" && exists w: nat :: cell == Pad(w, "TRUE")
  }

  predicate Delimiter(rest: string) {
    rest != "" && (rest[0] == ',' || rest[0] == ')')
  }

  /** A cell after at most a blank is read as its value, leaving the delimiter. */
  lemma CellReads(lead: string, cell: string, v: Value, rest: string)
    requires lead == "" || lead == " "
    requires Holds(cell, v) && Delimiter(rest)
    ensures ReadValue(lead + (cell + rest)).Some?
    ensures var got := ReadValue(lead + (cell + rest)).value; got.0 == v && SkipSpace(got.1) == rest
  {
    match v
    case Text(t) =>
      var w: nat :| cell == Pad(w, SqlQuote(t));
      PaddedTail(w, SqlQuote(t), rest);
      TextReads(lead, t, Spaces(w - |SqlQuote(t)|) + rest);
    case Word(t) =>
      var w: nat :| cell == Pad(w, "TRUE");
      PaddedTail(w, "TRUE", rest);
      WordReads(lead, Spaces(w - 4) + rest);
  }

  lemma PaddedTail(w: nat, s: string, rest: string)
    requires Delimiter(rest)
    ensures var tail := Spaces(w - |s|) + rest;
      && Pad(w, s) + rest == s + tail
      && SkipSpace(tail) == rest
      && tail != "" && tail[0] != '\'' && !IsLetter(tail[0])
  {
    SkipsSpaces(Spaces(w - |s|), rest);
    assert Pad(w, s) + rest == s + (Spaces(w - |s|) + rest);
  }

  lemma BlankSkipped(lead: string, text: string)
    requires lead == "" || lead == " "
    requires text != "" && !IsSpace(text[0])
    ensures SkipSpace(lead + text) == text
  {
    SkipsSpaces(lead, text);
  }

  lemma TextReads(lead: string, t: string, tail: string)
    requires lead == "" || lead == " "
    requires tail != "" && tail[0] != '\''
    ensures ReadValue(lead + (SqlQuote(t) + tail)) == Some((Text(t), tail))
  {
    var body := Doubled(t) + "'" + tail;
    assert SqlQuote(t) + tail == "'" + body && ("'" + body)[1..] == body;
    BlankSkipped(lead, "'" + body);
    QuoteReads(t, tail);
  }

  lemma WordReads(lead: string, tail: string)
    requires lead == "" || lead == " "
    requires tail != "" && !IsLetter(tail[0])
    ensures ReadValue(lead + ("TRUE" + tail)) == Some((Word("TRUE"), tail))
  {
    BlankSkipped(lead, "TRUE" + tail);
    LettersRead("TRUE", tail);
  }

  lemma {:induction false} LettersRead(word: string, tail: string)
    requires forall i | 0 <= i < |word| :: IsLetter(word[i])
    requires tail != "" && !IsLetter(tail[0])
    ensures ReadWord(word + tail) == (word, tail)
  {
    if word == "" {
      assert word + tail == tail;
    } else {
      assert (word + tail)[0] == word[0] && (word + tail)[1..] == word[1..] + tail;
      LettersRead(word[1..], tail);
      assert word == [word[0]] + word[1..];
    }
  }

  lemma OneCellMore(lead: string, cell: string, v: Value, tail: string, vs: seq<Value>, rest: string)
    requires (lead == "" || lead == " ") && Holds(cell, v) && ReadValues(tail) == Some((vs, rest))
    ensures ReadValues(lead + (cell + ("," + tail))) == Some(([v] + vs, rest))
  {
    CellReads(lead, cell, v, "," + tail);
    assert ("," + tail)[1..] == tail;
  }

  lemma OnlyCell(lead: string, cell: string, v: Value, rest: string)
    requires (lead == "" || lead == " ") && Holds(cell, v)
    ensures ReadValues(lead + (cell + (")" + rest))) == Some(([v], rest))
  {
    CellReads(lead, cell, v, ")" + rest);
    assert (")" + rest)[1..] == rest;
  }

  lemma JoinedSplits(cells: seq<string>, rest: string)
    requires |cells| > 1
    ensures Joined(cells) + (")" + rest) == cells[0] + ("," + (" " + (Joined(cells[1..]) + (")" + rest))))
  {
  }

  lemma {:induction false} CellsRead(lead: string, cells: seq<string>, vs: seq<Value>, rest: string)
    requires lead == "" || lead == " "
    requires |cells| == |vs| > 0 && forall i | 0 <= i < |cells| :: Holds(cells[i], vs[i])
    ensures ReadValues(lead + (Joined(cells) + (")" + rest))) == Some((vs, rest))
    decreases |cells|
  {
    if |cells| == 1 {
      OnlyCell(lead, cells[0], vs[0], rest);
      assert vs == [vs[0]];
    } else {
      var tail := " " + (Joined(cells[1..]) + (")" + rest));
      JoinedSplits(cells, rest);
      CellsRead(" ", cells[1..], vs[1..], rest);
      OneCellMore(lead, cells[0], vs[0], tail, vs[1..], rest);
      assert vs == [vs[0]] + vs[1..];
    }
  }

  lemma RowReads(w: Widths, r: Row, rest: string)
    ensures ReadValues(Joined(Cells(w, Quoted(r))) + (")" + rest)) == Some((ValuesOf(r), rest))
  {
    var cells, vs := Cells(w, Quoted(r)), ValuesOf(r);
    forall i | 0 <= i < |cells| ensures Holds(cells[i], vs[i]) {}
    CellsRead("", cells, vs, rest);
    assert "" + (Joined(cells) + (")" + rest)) == Joined(cells) + (")" + rest);
  }

  /**
   * Print, then parse: for any non-empty list of rows, any texts in them and
   * any column widths, the printed text is one well-formed list of rows whose
   * values are the raw fields in order.
   */
  lemma {:induction false} PrintThenParse(w: Widths, rows: seq<Row>)
    requires rows != []
    ensures ReadRows(Print(w, QuotedAll(rows))) == Some(AllValues(rows))
  {
    PrintThenParseAfter("", w, rows);
    assert "" + Print(w, QuotedAll(rows)) == Print(w, QuotedAll(rows));
  }

  lemma {:induction false} PrintThenParseAfter(lead: string, w: Widths, rows: seq<Row>)
    requires rows != [] && (lead == "" || lead == "\n")
    ensures ReadRows(lead + Print(w, QuotedAll(rows))) == Some(AllValues(rows))
    decreases |rows|
  {
    var q := QuotedAll(rows);
    PrintSplits(w, q);
    var cells, row := Joined(Cells(w, q[0])), ValuesOf(rows[0]);
    if |rows| == 1 {
      RowReads(w, rows[0], ";\n");
      LastRow(lead, cells, row);
      assert AllValues(rows) == [row];
    } else {
      assert q[1..] == QuotedAll(rows[1..]);
      PrintThenParseAfter("\n", w, rows[1..]);
      NextRows(lead, w, rows[0], "\n" + Print(w, q[1..]));
    }
  }

  lemma NextRows(lead: string, w: Widths, r: Row, next: string)
    requires (lead == "" || lead == "\n") && ReadRows(next).Some?
    ensures ReadRows(lead + ("(" + (Joined(Cells(w, Quoted(r))) + (")" + ("," + next)))))
         == Some([ValuesOf(r)] + ReadRows(next).value)
  {
    RowReads(w, r, "," + next);
    MoreRows(lead, Joined(Cells(w, Quoted(r))), ValuesOf(r), next);
  }

  lemma LastRow(lead: string, body: string, row: seq<Value>)
    requires lead == "" || lead == "\n"
    requires ReadValues(body + (")" + ";\n")) == Some((row, ";\n"))
    ensures ReadRows(lead + ("(" + (body + (")" + ";\n")))) == Some([row])
  {
    var text := "(" + (body + (")" + ";\n"));
    LeadSkipped(lead, text);
    assert text[1..] == body + (")" + ";\n");
    assert ";\n"[1..] == "\n" && "\n"[1..] == "";
  }

  lemma RowThenRows(input: string, row: seq<Value>, next: string)
    requires SkipSpace(input) != "" && SkipSpace(input)[0] == '('
    requires ReadValues(SkipSpace(input)[1..]) == Some((row, "," + next)) && ReadRows(next).Some?
    ensures ReadRows(input) == Some([row] + ReadRows(next).value)
  {
    assert ("," + next)[1..] == next;
  }

  lemma MoreRows(lead: string, body: string, row: seq<Value>, next: string)
    requires lead == "" || lead == "\n"
    requires ReadValues(body + (")" + ("," + next))) == Some((row, "," + next))
    requires ReadRows(next).Some?
    ensures ReadRows(lead + ("(" + (body + (")" + ("," + next))))) == Some([row] + ReadRows(next).value)
  {
    var text := "(" + (body + (")" + ("," + next)));
    LeadSkipped(lead, text);
    assert text[1..] == body + (")" + ("," + next));
    RowThenRows(lead + text, row, next);
  }

  lemma PrintSplits(w: Widths, q: seq<Record>)
    requires q != []
    ensures var more := if |q| == 1 then ";\n" else "," + ("\n" + Print(w, q[1..]));
      Print(w, q) == "(" + (Joined(Cells(w, q[0])) + (")" + more))
  {
    Regroup(Joined(Cells(w, q[0])), if |q| == 1 then "" else Print(w, q[1..]));
  }

  lemma Regroup(body: string, next: string)
    ensures ("(" + body + "),\n") + next == "(" + (body + (")" + ("," + ("\n" + next))))
    ensures ("(" + body + ");\n") + "" == "(" + (body + (")" + ";\n"))
  {
    assert "),\n" == ")" + ("," + "\n") && ");\n" == ")" + ";\n";
  }

  lemma LeadSkipped(lead: string, text: string)
    requires lead == "" || lead == "\n"
    requires text != "" && text[0] == '('
    ensures SkipSpace(lead + text) == text
  {
    if lead == "" {
      assert lead + text == text;
    } else {
      assert (lead + text)[1..] == text;
    }
  }

  lemma {:induction false} AllValuesInjective(a: seq<Row>, b: seq<Row>)
    requires AllValues(a) == AllValues(b)
    ensures a == b
  {
    if a == [] || b == [] {
      assert a == [] && b == [];
    } else {
      assert AllValues(a)[0] == ValuesOf(a[0]) && AllValues(b)[0] == ValuesOf(b[0]);
      assert ValuesOf(a[0])[0] == Text(a[0].id) && ValuesOf(b[0])[0] == Text(b[0].id);
      assert ValuesOf(a[0])[1] == Text(a[0].summary) && ValuesOf(b[0])[1] == Text(b[0].summary);
      assert ValuesOf(a[0])[2] == Text(a[0].description) && ValuesOf(b[0])[2] == Text(b[0].description);
      assert ValuesOf(a[0])[3] == Text(a[0].verb) && ValuesOf(b[0])[3] == Text(b[0].verb);
      assert ValuesOf(a[0])[4] == Text(a[0].path) && ValuesOf(b[0])[4] == Text(b[0].path);
      assert AllValues(a)[1..] == AllValues(a[1..]) && AllValues(b)[1..] == AllValues(b[1..]);
      AllValuesInjective(a[1..], b[1..]);
      assert a == [a[0]] + a[1..] && b == [b[0]] + b[1..];
    }
  }

  /** Two lists of rows that print alike are the same list. */
  lemma PrintInjective(w: Widths, v: Widths, a: seq<Row>, b: seq<Row>)
    requires a != [] && b != [] && Print(w, QuotedAll(a)) == Print(v, QuotedAll(b))
    ensures a == b
  {
    PrintThenParse(w, a);
    PrintThenParse(v, b);
    AllValuesInjective(a, b);
  }
}
