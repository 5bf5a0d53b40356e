/**
 * A reader for the list of row values the generator prints: character string
 * literals as section 5.3 of ISO/IEC 9075-2 has them (a quote is written twice),
 * bare words, parentheses, commas between rows and one semicolon at the end.
 * It knows nothing of how the rows were printed.
 */
module SqlReader {
  import opened Wrappers

  datatype Value = Text(text: string) | Word(word: string)

  predicate IsSpace(c: char) {
    c == ' ' || c == '\n' || c == '\t' || c == '\r'
  }

  predicate IsLetter(c: char) {
    'A' <= c <= 'Z' || 'a' <= c <= 'z'
  }

  function SkipSpace(s: string): (r: string)
    ensures |r| <= |s|
  {
    if s != "" && IsSpace(s[0]) then SkipSpace(s[1..]) else s
  }

  /** The text of a literal whose opening quote has been read, and what follows it. */
  function ReadBody(s: string): (r: Option<(string, string)>)
    ensures r.Some? ==> |r.value.1| < |s|
  {
    if s == "" then None
    else if s[0] != '\'' then
      match ReadBody(s[1..])
      case None => None
      case Some((text, rest)) => Some(([s[0]] + text, rest))
    else if |s| > 1 && s[1] == '\'' then
      match ReadBody(s[2..])
      case None => None
      case Some((text, rest)) => Some((['\''] + text, rest))
    else Some(("", s[1..]))
  }

  function ReadWord(s: string): (r: (string, string))
    ensures |r.1| <= |s|
    ensures s != "" && IsLetter(s[0]) ==> |r.1| < |s|
  {
    if s != "" && IsLetter(s[0]) then
      var (word, rest) := ReadWord(s[1..]);
      ([s[0]] + word, rest)
    else ("", s)
  }

  function ReadValue(input: string): (r: Option<(Value, string)>)
    ensures r.Some? ==> |r.value.1| < |input|
  {
    var s := SkipSpace(input);
    if s == "" then None
    else if s[0] == '\'' then
      match ReadBody(s[1..])
      case None => None
      case Some((text, rest)) => Some((Text(text), rest))
    else if IsLetter(s[0]) then
      var (word, rest) := ReadWord(s);
      Some((Word(word), rest))
    else None
  }

  /** Values up to and including the closing parenthesis. */
  function ReadValues(s: string): (r: Option<(seq<Value>, string)>)
    ensures r.Some? ==> |r.value.1| < |s|
    decreases |s|
  {
    match ReadValue(s)
    case None => None
    case Some((v, rest)) =>
      var t := SkipSpace(rest);
      if t == "" then None
      else if t[0] == ')' then Some(([v], t[1..]))
      else if t[0] == ',' then
        match ReadValues(t[1..])
        case None => None
        case Some((vs, after)) => Some(([v] + vs, after))
      else None
  }

  /** Every row of the list, or None when the text is not one whole statement tail. */
  function ReadRows(input: string): Option<seq<seq<Value>>>
    decreases |input|
  {
    var s := SkipSpace(input);
    if s == "" || s[0] != '(' then None
    else
      match ReadValues(s[1..])
      case None => None
      case Some((row, rest)) =>
        var t := SkipSpace(rest);
        if t == "" then None
        else if t[0] == ';' then (if SkipSpace(t[1..]) == "" then Some([row]) else None)
        else if t[0] == ',' then
          match ReadRows(t[1..])
          case None => None
          case Some(rows) => Some([row] + rows)
        else None
  }
}
