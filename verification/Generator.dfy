/**
 * The generator's main loop over a specification: filter, collect, widen, sort
 * and print.  The maps are walked in whatever order they yield, so the methods
 * pick an arbitrary key each time.
 */
module Generator {
  import opened Wrappers
  import opened ApiEndpoints
  import opened RecordOrder
  import opened SqlReader
  import opened Utf8

  datatype Operation = Operation(operationId: string, summary: string, description: string)

  type Spec = map<string, map<string, Operation>>

  /** What the generator is given: the decoded file, unicode.ToUpper and uuid.Parse. */
  datatype Input = Input(spec: Spec, upper: char -> char, parse: string -> Option<string>)

  type Endpoint = (string, string)

  const EXCLUDES: map<string, string> := map[
    "/ui" := "GET",
    "/projects/health" := "GET",
    "/permissions/health" := "GET",
    "/roles/health" := "GET",
    "/tokens/health" := "GET",
    "/users/health" := "GET",
    "/version" := "GET",
    "/health/status" := "GET"
  ]

  function ToUpper(upper: char -> char, s: string): (r: string)
    ensures |r| == |s| && forall i | 0 <= i < |s| :: r[i] == upper(s[i])
  {
    seq(|s|, i requires 0 <= i < |s| => upper(s[i]))
  }

  predicate Skipped(inp: Input, path: string, verb: string) {
    path in EXCLUDES && EXCLUDES[path] == ToUpper(inp.upper, verb)
  }

  predicate IsEndpoint(inp: Input, e: Endpoint) {
    e.0 in inp.spec && e.1 in inp.spec[e.0] && !Skipped(inp, e.0, e.1)
  }

  predicate IsHex(c: char) {
    '0' <= c <= '9' || 'a' <= c <= 'f'
  }

  /** The text of a UUID of version 7, as section 5.7 of RFC 9562 has it: what NewV7 may draw. */
  predicate IsV7(s: string) {
    && |s| == 36
    && (forall i | 0 <= i < 36 :: if i == 8 || i == 13 || i == 18 || i == 23 then s[i] == '-' else IsHex(s[i]))
    && s[14] == '7' && (s[19] == '8' || s[19] == '9' || s[19] == 'a' || s[19] == 'b')
  }

  /** What NewV7 yields, call by call. */
  ghost predicate DrawsV7(draw: nat -> string) {
    forall n: nat :: IsV7(draw(n))
  }

  predicate HasNoId(inp: Input, e: Endpoint)
    requires IsEndpoint(inp, e)
  {
    inp.spec[e.0][e.1].operationId == ""
  }

  /** The operation's own id when it has one that parses, otherwise one drawn. */
  predicate IdFits(inp: Input, e: Endpoint, id: string)
    requires IsEndpoint(inp, e)
  {
    if HasNoId(inp, e) then IsV7(id) else inp.parse(inp.spec[e.0][e.1].operationId) == Some(id)
  }

  predicate BadId(inp: Input, e: Endpoint)
    requires IsEndpoint(inp, e)
  {
    var given := inp.spec[e.0][e.1].operationId;
    given != "" && inp.parse(given).None?
  }

  function RowFor(inp: Input, e: Endpoint, id: string): Row
    requires IsEndpoint(inp, e)
  {
    var op := inp.spec[e.0][e.1];
    Row(id, op.summary, op.description, ToUpper(inp.upper, e.1), e.0)
  }

  // ------------------------------------------------------------------- widths

  function Max(a: nat, b: nat): nat {
    if a < b then b else a
  }

  /** The byte lengths the width loop looks at: of the raw fields, and of the method as it is spelt. */
  function Lengths(e: Endpoint, r: Row): Widths {
    Widths(ByteLen(r.id), ByteLen(r.summary), ByteLen(r.description), ByteLen(e.1), ByteLen(e.0), 4)
  }

  function Widen(w: Widths, l: Widths): Widths {
    Widths(
      Max(w.id, l.id), Max(w.summary, l.summary), Max(w.description, l.description),
      Max(w.verb, l.verb), Max(w.path, l.path), Max(w.system, l.system))
  }

  /** The widths of the column titles, before any record. */
  const TITLES := Widths(2, 7, 11, 6, 4, 6)

  function Padded(w: Widths): Widths {
    Widths(w.id + 2, w.summary + 2, w.description + 2, w.verb + 2, w.path + 2, w.system + 2)
  }

  predicate Fits(l: Widths, w: Widths) {
    && l.id <= w.id && l.summary <= w.summary && l.description <= w.description
    && l.verb <= w.verb && l.path <= w.path && l.system <= w.system
  }

  /** Each column of `w` is the largest entry of that column. */
  ghost predicate Widest(w: Widths, ls: set<Widths>) {
    && (forall l | l in ls :: Fits(l, w))
    && (exists l :: l in ls && l.id == w.id)
    && (exists l :: l in ls && l.summary == w.summary)
    && (exists l :: l in ls && l.description == w.description)
    && (exists l :: l in ls && l.verb == w.verb)
    && (exists l :: l in ls && l.path == w.path)
    && (exists l :: l in ls && l.system == w.system)
  }

  lemma WidestUnique(v: Widths, w: Widths, ls: set<Widths>)
    requires Widest(v, ls) && Widest(w, ls)
    ensures v == w
  {
  }

  lemma WidestGrows(w: Widths, ls: set<Widths>, l: Widths)
    requires Widest(w, ls)
    ensures Widest(Widen(w, l), ls + {l})
  {
    var v, more := Widen(w, l), ls + {l};
    assert l in more;
    forall k | k in more ensures Fits(k, v) {
      assert k == l || Fits(k, w);
    }
    assert exists k :: k in more && k.id == v.id by {
      var k :| k in ls && k.id == w.id;
      assert k in more;
    }
    assert exists k :: k in more && k.summary == v.summary by {
      var k :| k in ls && k.summary == w.summary;
      assert k in more;
    }
    assert exists k :: k in more && k.description == v.description by {
      var k :| k in ls && k.description == w.description;
      assert k in more;
    }
    assert exists k :: k in more && k.verb == v.verb by {
      var k :| k in ls && k.verb == w.verb;
      assert k in more;
    }
    assert exists k :: k in more && k.path == v.path by {
      var k :| k in ls && k.path == w.path;
      assert k in more;
    }
    assert exists k :: k in more && k.system == v.system by {
      var k :| k in ls && k.system == w.system;
      assert k in more;
    }
  }

  // --------------------------------------------------------------- collecting

  ghost predicate Distinct<T>(s: seq<T>) {
    forall i, j | 0 <= i < j < |s| :: s[i] != s[j]
  }

  /** The lengths of every row collected, the titles among them. */
  ghost function AllLengths(es: seq<Endpoint>, rows: seq<Row>): set<Widths>
    requires |es| == |rows|
  {
    {TITLES} + set i | 0 <= i < |es| :: Lengths(es[i], rows[i])
  }

  /** One row per endpoint visited so far, with widths to match. */
  ghost predicate Collected(inp: Input, es: seq<Endpoint>, rows: seq<Row>, w: Widths) {
    && |es| == |rows| && Distinct(es)
    && (forall i | 0 <= i < |es| ::
          IsEndpoint(inp, es[i]) && IdFits(inp, es[i], rows[i].id) && rows[i] == RowFor(inp, es[i], rows[i].id))
    && Widest(w, AllLengths(es, rows))
  }

  lemma CollectedGrows(inp: Input, es: seq<Endpoint>, rows: seq<Row>, w: Widths, e: Endpoint, id: string)
    requires Collected(inp, es, rows, w) && IsEndpoint(inp, e) && IdFits(inp, e, id) && e !in es
    ensures var r := RowFor(inp, e, id); Collected(inp, es + [e], rows + [r], Widen(w, Lengths(e, r)))
  {
    var r := RowFor(inp, e, id);
    var fs, qs := es + [e], rows + [r];
    WidthsGrow(w, es, rows, e, r);
  }

  lemma LengthsGrow(es: seq<Endpoint>, rows: seq<Row>, e: Endpoint, r: Row)
    requires |es| == |rows|
    ensures AllLengths(es + [e], rows + [r]) == AllLengths(es, rows) + {Lengths(e, r)}
  {
    var fs, qs := es + [e], rows + [r];
    assert forall i | 0 <= i < |es| :: fs[i] == es[i] && qs[i] == rows[i];
    assert fs[|es|] == e && qs[|es|] == r;
  }

  lemma NothingCollected(inp: Input)
    ensures Collected(inp, [], [], TITLES)
  {
    TitlesWidest();
  }

  /** Every endpoint of this kind has been visited. */
  ghost predicate CoversPath(inp: Input, es: seq<Endpoint>, path: string, verbs: set<string>) {
    forall verb | verb in verbs && IsEndpoint(inp, (path, verb)) :: (path, verb) in es
  }

  ghost predicate Covers(inp: Input, es: seq<Endpoint>, paths: set<string>) {
    forall path | path in paths && path in inp.spec :: CoversPath(inp, es, path, inp.spec[path].Keys)
  }

  /** No visited endpoint is on one of these paths. */
  ghost predicate Avoids(es: seq<Endpoint>, paths: set<string>) {
    forall e | e in es :: e.0 !in paths
  }

  /**
   * The collecting loops.  `draw` yields the ids of operations without one; the
   * first id that does not parse panics.
   */
  method Collect(inp: Input, draw: nat -> string)
    returns (panic: bool, records: seq<Record>, w: Widths, ghost es: seq<Endpoint>, ghost rows: seq<Row>)
    requires DrawsV7(draw)
    ensures panic ==> exists e :: IsEndpoint(inp, e) && BadId(inp, e)
    ensures !panic ==> Collected(inp, es, rows, w) && Covers(inp, es, inp.spec.Keys) && records == QuotedAll(rows)
  {
    panic, records, w, es, rows := false, [], TITLES, [], [];
    NothingCollected(inp);
    var drawn := 0;
    var todo := inp.spec.Keys;
    while todo != {}
      invariant todo <= inp.spec.Keys && Avoids(es, todo)
      invariant Collected(inp, es, rows, w) && records == QuotedAll(rows)
      invariant Covers(inp, es, inp.spec.Keys - todo)
      decreases |todo|
    {
      var path :| path in todo;
      todo := todo - {path};
      ghost var before := es;
      panic, records, w, drawn, es, rows := CollectPath(inp, draw, path, records, w, drawn, es, rows);
      if panic {
        return;
      }
      CoverGrows(inp, before, es, inp.spec.Keys - todo - {path});
    }
  }

  lemma CoverGrows(inp: Input, es: seq<Endpoint>, more: seq<Endpoint>, paths: set<string>)
    requires Covers(inp, es, paths) && forall e | e in es :: e in more
    ensures Covers(inp, more, paths)
  {
    forall path | path in paths && path in inp.spec
      ensures CoversPath(inp, more, path, inp.spec[path].Keys)
    {
      assert CoversPath(inp, es, path, inp.spec[path].Keys);
    }
  }

  /** One path part way through: `todo` are the methods not looked at yet. */
  ghost predicate Walking(
    inp: Input, path: string, es0: seq<Endpoint>, todo: set<string>, es: seq<Endpoint>, rows: seq<Row>, w: Widths)
    requires path in inp.spec
  {
    && Collected(inp, es, rows, w)
    && CoversPath(inp, es, path, inp.spec[path].Keys - todo)
    && (forall e | e in es :: e in es0 || (e.0 == path && e.1 !in todo))
    && (forall e | e in es0 :: e in es)
  }

  lemma SkipKeeps(
    inp: Input, path: string, es0: seq<Endpoint>, todo: set<string>, es: seq<Endpoint>, rows: seq<Row>, w: Widths,
    verb: string)
    requires path in inp.spec && Walking(inp, path, es0, todo, es, rows, w)
    requires verb in todo && !IsEndpoint(inp, (path, verb))
    ensures Walking(inp, path, es0, todo - {verb}, es, rows, w)
  {
  }

  lemma TakeKeeps(
    inp: Input, path: string, es0: seq<Endpoint>, todo: set<string>, es: seq<Endpoint>, rows: seq<Row>, w: Widths,
    verb: string, id: string)
    requires path in inp.spec && Walking(inp, path, es0, todo, es, rows, w)
    requires verb in todo && IsEndpoint(inp, (path, verb)) && IdFits(inp, (path, verb), id) && Avoids(es0, {path})
    ensures var (e, row) := ((path, verb), RowFor(inp, (path, verb), id));
      Walking(inp, path, es0, todo - {verb}, es + [e], rows + [row], Widen(w, Lengths(e, row)))
  {
    CollectedGrows(inp, es, rows, w, (path, verb), id);
  }

  lemma QuotedGrows(rows: seq<Row>, row: Row)
    ensures QuotedAll(rows + [row]) == QuotedAll(rows) + [Quoted(row)]
  {
  }

  method CollectPath(
    inp: Input, draw: nat -> string, path: string, records0: seq<Record>, w0: Widths, drawn0: nat,
    ghost es0: seq<Endpoint>, ghost rows0: seq<Row>)
    returns (panic: bool, records: seq<Record>, w: Widths, drawn: nat, ghost es: seq<Endpoint>, ghost rows: seq<Row>)
    requires DrawsV7(draw) && path in inp.spec && Avoids(es0, {path})
    requires Collected(inp, es0, rows0, w0) && records0 == QuotedAll(rows0)
    ensures panic ==> exists e :: IsEndpoint(inp, e) && BadId(inp, e)
    ensures !panic ==> Collected(inp, es, rows, w) && records == QuotedAll(rows)
    ensures !panic ==> CoversPath(inp, es, path, inp.spec[path].Keys)
    ensures forall e | e in es :: e in es0 || e.0 == path
    ensures forall e | e in es0 :: e in es
  {
    panic, records, w, drawn, es, rows := false, records0, w0, drawn0, es0, rows0;
    var todo := inp.spec[path].Keys;
    while todo != {}
      invariant todo <= inp.spec[path].Keys && records == QuotedAll(rows)
      invariant Walking(inp, path, es0, todo, es, rows, w)
      decreases |todo|
    {
      var verb :| verb in todo;
      if path in EXCLUDES && EXCLUDES[path] == ToUpper(inp.upper, verb) {
        SkipKeeps(inp, path, es0, todo, es, rows, w, verb);
        todo := todo - {verb};
        continue;
      }
      ghost var e: Endpoint := (path, verb);
      assert IsEndpoint(inp, e);
      var op := inp.spec[path][verb];
      var id: string;
      if op.operationId == "" {
        id := draw(drawn);
        drawn := drawn + 1;
      } else {
        var parsed := inp.parse(op.operationId);
        if parsed.None? {
          assert BadId(inp, e);
          panic := true;
          return;
        }
        id := parsed.value;
      }
      var row := RowFor(inp, (path, verb), id);
      TakeKeeps(inp, path, es0, todo, es, rows, w, verb, id);
      QuotedGrows(rows, row);
      w := Widen(w, Lengths((path, verb), row));
      records := records + [Quoted(row)];
      es, rows := es + [e], rows + [row];
      todo := todo - {verb};
    }
    assert inp.spec[path].Keys - {} == inp.spec[path].Keys;
  }

  /** The print loop: the last row ends in a semicolon, every other in a comma. */
  method PrintAll(w: Widths, records: seq<Record>) returns (text: string)
    ensures text == Print(w, records)
  {
    text := "";
    for i := 0 to |records|
      invariant text + Print(w, records[i..]) == Print(w, records)
    {
      assert records[i..][1..] == records[i + 1..];
      if i == |records| - 1 {
        text := text + PrintRow(w, records[i], true);
      } else {
        text := text + PrintRow(w, records[i], false);
      }
    }
  }

  /** Some order of the walk, with some ids drawn and some arrangement of ties, prints this text. */
  ghost predicate Prints(inp: Input, es: seq<Endpoint>, rows: seq<Row>, w: Widths, records: seq<Record>, text: string) {
    && Collected(inp, es, rows, w) && Covers(inp, es, inp.spec.Keys)
    && Sorted(records) && multiset(records) == multiset(QuotedAll(rows))
    && text == Print(Padded(w), records)
  }

  ghost predicate IsOutput(inp: Input, text: string) {
    exists es, rows, w, records :: Prints(inp, es, rows, w, records, text)
  }

  /** The whole program: a panic, or the text printed. */
  method Generate(inp: Input, draw: nat -> string) returns (r: Result<string, ()>)
    requires DrawsV7(draw)
    ensures r.Ok? ==> IsOutput(inp, r.value)
    ensures r.Err? <==> exists e :: IsEndpoint(inp, e) && BadId(inp, e)
  {
    var panic, records, w, es, rows := Collect(inp, draw);
    if panic {
      return Err(());
    }
    AllIdsFit(inp, es, rows, w);
    var sorted := SortFunc(records);
    var text := PrintAll(Padded(w), sorted);
    assert Prints(inp, es, rows, w, sorted, text);
    r := Ok(text);
  }

  lemma Visited(inp: Input, es: seq<Endpoint>, e: Endpoint)
    requires Covers(inp, es, inp.spec.Keys) && IsEndpoint(inp, e)
    ensures e in es
  {
    assert CoversPath(inp, es, e.0, inp.spec[e.0].Keys);
    assert (e.0, e.1) == e;
  }

  lemma AllIdsFit(inp: Input, es: seq<Endpoint>, rows: seq<Row>, w: Widths)
    requires Collected(inp, es, rows, w) && Covers(inp, es, inp.spec.Keys)
    ensures forall e | IsEndpoint(inp, e) :: !BadId(inp, e)
  {
    forall e | IsEndpoint(inp, e) ensures !BadId(inp, e) {
      Visited(inp, es, e);
    }
  }

  // ------------------------------------- the output as a function of the spec

  /** Every endpoint names its own id, and the id parses. */
  ghost predicate IdsGiven(inp: Input) {
    forall e | IsEndpoint(inp, e) ::
      var given := inp.spec[e.0][e.1].operationId; given != "" && inp.parse(given).Some?
  }

  function RowOf(inp: Input, e: Endpoint): Row
    requires IsEndpoint(inp, e) && inp.parse(inp.spec[e.0][e.1].operationId).Some?
  {
    RowFor(inp, e, inp.parse(inp.spec[e.0][e.1].operationId).value)
  }

  /** Two endpoints that agree on the path and the upper-cased method have the same row. */
  ghost predicate NoConflict(inp: Input)
    requires IdsGiven(inp)
  {
    forall e, f | IsEndpoint(inp, e) && IsEndpoint(inp, f) && e.0 == f.0
                  && ToUpper(inp.upper, e.1) == ToUpper(inp.upper, f.1) ::
      RowOf(inp, e) == RowOf(inp, f)
  }

  ghost predicate OneOutput(inp: Input) {
    forall s, t | IsOutput(inp, s) && IsOutput(inp, t) :: s == t
  }

  lemma {:induction false} CountOne<T>(a: seq<T>, x: T)
    requires Distinct(a)
    ensures multiset(a)[x] == if x in a then 1 else 0
  {
    if a != [] {
      CountOne(a[1..], x);
      assert a == [a[0]] + a[1..];
    }
  }

  lemma DistinctPermutation<T>(a: seq<T>, b: seq<T>)
    requires Distinct(a) && Distinct(b) && forall x :: x in a <==> x in b
    ensures multiset(a) == multiset(b)
  {
    forall x: T ensures multiset(a)[x] == multiset(b)[x] {
      CountOne(a, x);
      CountOne(b, x);
    }
  }

  function Without<T>(s: seq<T>, j: nat): seq<T>
    requires j < |s|
  {
    s[..j] + s[j + 1..]
  }

  lemma WithoutOne<T>(s: seq<T>, j: nat)
    requires j < |s|
    ensures multiset(Without(s, j)) == multiset(s) - multiset{s[j]}
  {
    assert s == s[..j] + [s[j]] + s[j + 1..];
  }

  /** Equal elements have equal images. */
  ghost predicate Consistent<T(!new), U(!new)>(a: seq<T>, b: seq<T>, p: seq<U>, q: seq<U>) {
    && |a| == |p| && |b| == |q|
    && forall i, j | 0 <= i < |a| && 0 <= j < |b| && a[i] == b[j] :: p[i] == q[j]
  }

  lemma ConsistentRest<T(!new), U(!new)>(a: seq<T>, b: seq<T>, p: seq<U>, q: seq<U>, k: nat)
    requires Consistent(a, b, p, q) && a != [] && k < |b|
    ensures Consistent(a[1..], Without(b, k), p[1..], Without(q, k))
  {
    var c, r := Without(b, k), Without(q, k);
    forall i, j | 0 <= i < |a| - 1 && 0 <= j < |c| && a[1..][i] == c[j] ensures p[1..][i] == r[j] {
      var l := if j < k then j else j + 1;
      assert c[j] == b[l] && r[j] == q[l] && a[1..][i] == a[i + 1] && p[1..][i] == p[i + 1];
    }
  }

  /** So permuted lists have permuted images. */
  lemma {:induction false} SameImages<T(!new), U(!new)>(a: seq<T>, b: seq<T>, p: seq<U>, q: seq<U>)
    requires multiset(a) == multiset(b) && Consistent(a, b, p, q)
    ensures multiset(p) == multiset(q)
    decreases |a|
  {
    assert |a| == |multiset(a)| == |multiset(b)| == |b|;
    if a != [] {
      InBoth(a, b, a[0]);
      var j :| 0 <= j < |b| && b[j] == a[0];
      assert p[0] == q[j];
      Drop(a, b, j);
      ConsistentRest(a, b, p, q, j);
      SameImages(a[1..], Without(b, j), p[1..], Without(q, j));
      WithoutOne(q, j);
      assert p == [p[0]] + p[1..];
    }
  }

  lemma Drop<T>(a: seq<T>, b: seq<T>, j: nat)
    requires a != [] && j < |b| && a[0] == b[j] && multiset(a) == multiset(b)
    ensures multiset(a[1..]) == multiset(Without(b, j))
  {
    WithoutOne(b, j);
    assert a == [a[0]] + a[1..];
  }

  /** With ids given, a row is the row of its endpoint. */
  lemma RowsAre(inp: Input, es: seq<Endpoint>, rows: seq<Row>, w: Widths)
    requires IdsGiven(inp) && Collected(inp, es, rows, w)
    ensures forall i | 0 <= i < |es| :: IsEndpoint(inp, es[i]) && rows[i] == RowOf(inp, es[i])
  {
  }

  lemma NoConflictNoTies(inp: Input, es: seq<Endpoint>, rows: seq<Row>, records: seq<Record>)
    requires IdsGiven(inp) && NoConflict(inp) && |es| == |rows|
    requires forall i | 0 <= i < |es| :: IsEndpoint(inp, es[i]) && rows[i] == RowOf(inp, es[i])
    requires multiset(records) == multiset(QuotedAll(rows))
    ensures NoTies(records)
  {
    forall a, b | a in records && b in records && a.path == b.path && a.verb == b.verb ensures a == b {
      InBoth(records, QuotedAll(rows), a);
      InBoth(records, QuotedAll(rows), b);
      var i :| 0 <= i < |rows| && QuotedAll(rows)[i] == a;
      var j :| 0 <= j < |rows| && QuotedAll(rows)[j] == b;
      QuoteInjective(rows[i].path, rows[j].path);
      QuoteInjective(rows[i].verb, rows[j].verb);
      assert es[i].0 == es[j].0;
    }
  }

  /**
   * Whatever order the maps are walked in and however ties are arranged, the
   * widths, the sorted records and the printed text are the same.
   */
  lemma SameText(
    inp: Input,
    es: seq<Endpoint>, rows: seq<Row>, w: Widths, records: seq<Record>, text: string,
    es': seq<Endpoint>, rows': seq<Row>, w': Widths, records': seq<Record>, text': string)
    requires IdsGiven(inp) && NoConflict(inp)
    requires Prints(inp, es, rows, w, records, text) && Prints(inp, es', rows', w', records', text')
    ensures w == w' && records == records' && text == text'
  {
    RowsAre(inp, es, rows, w);
    RowsAre(inp, es', rows', w');
    SameWalk(inp, es, es');
    SameRecords(inp, es, rows, records, es', rows', records');
    SameWidths(inp, es, rows, w, es', rows', w');
  }

  lemma SameRecords(
    inp: Input, es: seq<Endpoint>, rows: seq<Row>, records: seq<Record>,
    es': seq<Endpoint>, rows': seq<Row>, records': seq<Record>)
    requires IdsGiven(inp) && NoConflict(inp) && |es| == |rows| && |es'| == |rows'|
    requires forall i | 0 <= i < |es| :: IsEndpoint(inp, es[i]) && rows[i] == RowOf(inp, es[i])
    requires forall i | 0 <= i < |es'| :: IsEndpoint(inp, es'[i]) && rows'[i] == RowOf(inp, es'[i])
    requires multiset(es) == multiset(es') && Sorted(records) && Sorted(records')
    requires multiset(records) == multiset(QuotedAll(rows)) && multiset(records') == multiset(QuotedAll(rows'))
    ensures records == records'
  {
    SameImages(es, es', QuotedAll(rows), QuotedAll(rows'));
    NoConflictNoTies(inp, es, rows, records);
    SortedIsUnique(records, records');
  }

  lemma SameWidths(
    inp: Input, es: seq<Endpoint>, rows: seq<Row>, w: Widths, es': seq<Endpoint>, rows': seq<Row>, w': Widths)
    requires IdsGiven(inp) && |es| == |rows| && |es'| == |rows'|
    requires forall i | 0 <= i < |es| :: IsEndpoint(inp, es[i]) && rows[i] == RowOf(inp, es[i])
    requires forall i | 0 <= i < |es'| :: IsEndpoint(inp, es'[i]) && rows'[i] == RowOf(inp, es'[i])
    requires forall e :: e in es <==> e in es'
    requires Widest(w, AllLengths(es, rows)) && Widest(w', AllLengths(es', rows'))
    ensures w == w'
  {
    SameLengths(inp, es, rows, es', rows');
    SameLengths(inp, es', rows', es, rows);
    WidestUnique(w, w', AllLengths(es, rows));
  }

  lemma SameWalk(inp: Input, es: seq<Endpoint>, es': seq<Endpoint>)
    requires Distinct(es) && Distinct(es')
    requires Covers(inp, es, inp.spec.Keys) && Covers(inp, es', inp.spec.Keys)
    requires forall e | e in es || e in es' :: IsEndpoint(inp, e)
    ensures multiset(es) == multiset(es') && forall e :: e in es <==> e in es'
  {
    forall e ensures e in es <==> e in es' {
      if e in es {
        Visited(inp, es', e);
      }
      if e in es' {
        Visited(inp, es, e);
      }
    }
    DistinctPermutation(es, es');
  }

  lemma SameLengths(inp: Input, es: seq<Endpoint>, rows: seq<Row>, es': seq<Endpoint>, rows': seq<Row>)
    requires IdsGiven(inp) && |es| == |rows| && |es'| == |rows'|
    requires forall i | 0 <= i < |es| :: IsEndpoint(inp, es[i]) && rows[i] == RowOf(inp, es[i])
    requires forall i | 0 <= i < |es'| :: IsEndpoint(inp, es'[i]) && rows'[i] == RowOf(inp, es'[i])
    requires forall e | e in es :: e in es'
    ensures AllLengths(es, rows) <= AllLengths(es', rows')
  {
    forall l | l in AllLengths(es, rows) ensures l in AllLengths(es', rows') {
      if l != TITLES {
        var i :| 0 <= i < |es| && l == Lengths(es[i], rows[i]);
        assert es[i] in es;
        var j :| 0 <= j < |es'| && es'[j] == es[i];
      }
    }
  }

  // --------------------------------------------- and exactly when it is not one

  lemma {:induction false} AnEnumeration(inp: Input, paths: set<string>) returns (es: seq<Endpoint>)
    requires paths <= inp.spec.Keys
    ensures Distinct(es) && Covers(inp, es, paths)
    ensures forall e | e in es :: IsEndpoint(inp, e) && e.0 in paths
    decreases |paths|
  {
    if paths == {} {
      es := [];
    } else {
      var path :| path in paths;
      var rest := AnEnumeration(inp, paths - {path});
      var here := AnEnumerationOf(inp, path, inp.spec[path].Keys);
      es := here + rest;
      forall i, j | 0 <= i < j < |es| ensures es[i] != es[j] {
        if i < |here| <= j {
          assert here[i] in here && rest[j - |here|] in rest;
        }
      }
      CoverGrows(inp, rest, es, paths - {path});
      assert CoversPath(inp, es, path, inp.spec[path].Keys);
    }
  }

  lemma {:induction false} AnEnumerationOf(inp: Input, path: string, verbs: set<string>) returns (es: seq<Endpoint>)
    requires path in inp.spec && verbs <= inp.spec[path].Keys
    ensures Distinct(es) && CoversPath(inp, es, path, verbs)
    ensures forall e | e in es :: IsEndpoint(inp, e) && e.0 == path && e.1 in verbs
    decreases |verbs|
  {
    if verbs == {} {
      es := [];
    } else {
      var verb :| verb in verbs;
      es := AnEnumerationOf(inp, path, verbs - {verb});
      if !Skipped(inp, path, verb) {
        es := es + [(path, verb)];
      }
    }
  }

  lemma {:induction false} SomeWidths(es: seq<Endpoint>, rows: seq<Row>) returns (w: Widths)
    requires |es| == |rows|
    ensures Widest(w, AllLengths(es, rows))
    decreases |es|
  {
    w := TITLES;
    if es == [] {
      assert es == [] && rows == [];
      TitlesWidest();
    } else {
      var n := |es| - 1;
      var (before, rowsBefore, e, r) := (es[..n], rows[..n], es[n], rows[n]);
      assert es == before + [e] && rows == rowsBefore + [r];
      var v := SomeWidths(before, rowsBefore);
      WidthsGrow(v, before, rowsBefore, e, r);
      w := Widen(v, Lengths(e, r));
    }
  }

  lemma TitlesWidest()
    ensures Widest(TITLES, AllLengths([], []))
  {
    assert TITLES in AllLengths([], []);
  }

  lemma WidthsGrow(w: Widths, es: seq<Endpoint>, rows: seq<Row>, e: Endpoint, r: Row)
    requires |es| == |rows| && Widest(w, AllLengths(es, rows))
    ensures Widest(Widen(w, Lengths(e, r)), AllLengths(es + [e], rows + [r]))
  {
    WidestGrows(w, AllLengths(es, rows), Lengths(e, r));
    LengthsGrow(es, rows, e, r);
  }

  /** A sorted arrangement of any rows. */
  lemma {:induction false} AnArrangement(rows: seq<Row>) returns (sorted: seq<Row>)
    ensures multiset(sorted) == multiset(rows) && Sorted(QuotedAll(sorted))
    decreases |rows|
  {
    if rows == [] {
      sorted := [];
    } else {
      var n := |rows| - 1;
      var rest := AnArrangement(rows[..n]);
      sorted := ArrangedWith(rest, rows[n]);
      assert rows == rows[..n] + [rows[n]];
    }
  }

  lemma ArrangedWith(rest: seq<Row>, x: Row) returns (sorted: seq<Row>)
    requires Sorted(QuotedAll(rest))
    ensures multiset(sorted) == multiset(rest) + multiset{x} && Sorted(QuotedAll(sorted))
  {
    var q := QuotedAll(rest);
    var k := PlaceFor(q, Quoted(x));
    sorted := rest[..k] + [x] + rest[k..];
    assert QuotedAll(sorted) == q[..k] + [Quoted(x)] + q[k..];
    assert rest == rest[..k] + rest[k..];
  }

  lemma {:induction false} PlaceFor(q: seq<Record>, x: Record) returns (k: nat)
    requires Sorted(q)
    ensures k <= |q| && Sorted(q[..k] + [x] + q[k..])
  {
    k := |q|;
    while k > 0 && !Le(q[k - 1], x)
      invariant k <= |q|
      invariant forall j | k <= j < |q| :: Le(x, q[j])
    {
      LeTotal(q[k - 1], x);
      k := k - 1;
    }
    BelowToo(q, k, x);
    SplitAt(Le, q, k, x);
  }

  // ------------------------------------------------------------ the ids drawn

  /** The id each endpoint without one of its own is given in some run of the program. */
  type Draws = Endpoint -> string

  ghost predicate Drawable(draws: Draws) {
    forall e :: IsV7(draws(e))
  }

  function Redraw(draws: Draws, e: Endpoint, other: string): Draws {
    (f: Endpoint) => if f == e then other else draws(f)
  }

  predicate IdsDrawn(inp: Input, es: seq<Endpoint>, rows: seq<Row>, draws: Draws)
    requires |es| == |rows| && forall i | 0 <= i < |es| :: IsEndpoint(inp, es[i])
  {
    forall i | 0 <= i < |es| && HasNoId(inp, es[i]) :: rows[i].id == draws(es[i])
  }

  /** The program may print this text when those are the ids it draws. */
  ghost predicate OutputWith(inp: Input, draws: Draws, text: string) {
    exists es, rows, w, records ::
      Prints(inp, es, rows, w, records, text) && IdsDrawn(inp, es, rows, draws)
  }

  /** A UUID of version 7 for each last digit. */
  function V7Of(digit: char): string {
    "01890000-0000-7000-8000-00000000000" + [digit]
  }

  lemma V7OfIsV7(digit: char)
    requires IsHex(digit)
    ensures IsV7(V7Of(digit))
  {
  }

  ghost predicate NoBadIds(inp: Input) {
    forall e | IsEndpoint(inp, e) :: !BadId(inp, e)
  }

  /** The operation's own id, or the one drawn where it has none. */
  function IdOf(inp: Input, e: Endpoint, draws: Draws): string
    requires IsEndpoint(inp, e) && !BadId(inp, e)
  {
    if HasNoId(inp, e) then draws(e) else inp.parse(inp.spec[e.0][e.1].operationId).value
  }

  /** A walk, its rows and widths, and an arrangement of them: whatever is drawn there is some output. */
  lemma SomeOutputWith(inp: Input, draws: Draws)
    returns (es: seq<Endpoint>, rows: seq<Row>, w: Widths, a: seq<Row>)
    requires NoBadIds(inp) && Drawable(draws)
    ensures Collected(inp, es, rows, w) && Covers(inp, es, inp.spec.Keys)
    ensures forall i | 0 <= i < |es| :: rows[i] == RowFor(inp, es[i], IdOf(inp, es[i], draws))
    ensures multiset(a) == multiset(rows) && Sorted(QuotedAll(a))
    ensures OutputWith(inp, draws, Print(Padded(w), QuotedAll(a)))
  {
    es := AnEnumeration(inp, inp.spec.Keys);
    forall i | 0 <= i < |es| ensures IsEndpoint(inp, es[i]) { assert es[i] in es; }
    rows := seq(|es|, i requires 0 <= i < |es| => RowFor(inp, es[i], IdOf(inp, es[i], draws)));
    w := SomeWidths(es, rows);
    a := AnArrangement(rows);
    SameImages(a, rows, QuotedAll(a), QuotedAll(rows));
    assert Prints(inp, es, rows, w, QuotedAll(a), Print(Padded(w), QuotedAll(a)));
  }

  lemma SomeOutput(inp: Input) returns (es: seq<Endpoint>, rows: seq<Row>, w: Widths, a: seq<Row>)
    requires IdsGiven(inp)
    ensures Collected(inp, es, rows, w) && Covers(inp, es, inp.spec.Keys)
    ensures forall i | 0 <= i < |es| :: rows[i] == RowOf(inp, es[i])
    ensures multiset(a) == multiset(rows) && Sorted(QuotedAll(a))
  {
    V7OfIsV7('1');
    es, rows, w, a := SomeOutputWith(inp, (f: Endpoint) => V7Of('1'));
  }

  /**
   * Every id drawn shows: were one endpoint's drawn differently and all others
   * as before, no order of the maps and no arrangement of ties would print the
   * same text.
   */
  lemma DrawShows(inp: Input, e: Endpoint, draws: Draws, other: string, s: string, t: string)
    requires IsEndpoint(inp, e) && HasNoId(inp, e) && other != draws(e)
    requires OutputWith(inp, draws, s) && OutputWith(inp, Redraw(draws, e, other), t)
    ensures s != t
  {
    var es, rows, w, records :| Prints(inp, es, rows, w, records, s) && IdsDrawn(inp, es, rows, draws);
    var es', rows', w', records' :| Prints(inp, es', rows', w', records', t)
      && IdsDrawn(inp, es', rows', Redraw(draws, e, other));
    SameWalk(inp, es, es');
    Visited(inp, es, e);
    RedrawnApart(inp, e, draws, other, es, rows, es', rows');
    var a := RawRows(rows, records);
    var b := RawRows(rows', records');
    assert |es| == |multiset(es)| == |es'|;
    PrintsApart(Padded(w), Padded(w'), a, b);
  }

  lemma RedrawnApart(
    inp: Input, e: Endpoint, draws: Draws, other: string,
    es: seq<Endpoint>, rows: seq<Row>, es': seq<Endpoint>, rows': seq<Row>)
    requires |es| == |rows| && |es'| == |rows'| && e in es && multiset(es) == multiset(es') && Distinct(es)
    requires forall i | 0 <= i < |es| ::
      IsEndpoint(inp, es[i]) && IdFits(inp, es[i], rows[i].id) && rows[i] == RowFor(inp, es[i], rows[i].id)
    requires forall i | 0 <= i < |es'| ::
      IsEndpoint(inp, es'[i]) && IdFits(inp, es'[i], rows'[i].id) && rows'[i] == RowFor(inp, es'[i], rows'[i].id)
    requires IdsDrawn(inp, es, rows, draws) && IdsDrawn(inp, es', rows', Redraw(draws, e, other))
    requires HasNoId(inp, e) && other != draws(e)
    ensures multiset(rows) != multiset(rows')
  {
    var k :| 0 <= k < |es| && es[k] == e;
    var redrawn := rows[k := RowFor(inp, e, other)];
    forall i, j | 0 <= i < |es| && 0 <= j < |es'| && es[i] == es'[j] ensures redrawn[i] == rows'[j] {
      assert i == k <==> es[i] == e;
    }
    SameImages(es, es', redrawn, rows');
    ReplacedApart(rows, k, redrawn[k]);
  }

  lemma ReplacedApart<T>(s: seq<T>, k: nat, x: T)
    requires k < |s| && s[k] != x
    ensures multiset(s[k := x]) != multiset(s)
  {
    assert multiset(s[k := x]) == multiset(s) - multiset{s[k]} + multiset{x};
    assert multiset(s[k := x])[x] == multiset(s)[x] + 1;
  }

  /** Without its own id an operation gets one drawn, and two draws that differ give two texts. */
  lemma MissingIdHasTwoOutputs(inp: Input, e: Endpoint)
    requires NoBadIds(inp) && IsEndpoint(inp, e) && HasNoId(inp, e)
    ensures !OneOutput(inp)
  {
    var draws, other := TwoDraws();
    RedrawDrawable(draws, e, other);
    var s := SomeText(inp, draws);
    var t := SomeText(inp, Redraw(draws, e, other));
    DrawShows(inp, e, draws, other, s, t);
  }

  lemma RedrawDrawable(draws: Draws, e: Endpoint, other: string)
    requires Drawable(draws) && IsV7(other)
    ensures Drawable(Redraw(draws, e, other))
  {
    forall f ensures IsV7(Redraw(draws, e, other)(f)) {
      assert f != e ==> IsV7(draws(f));
    }
  }

  lemma TwoDraws() returns (draws: Draws, other: string)
    ensures Drawable(draws) && IsV7(other) && forall e :: draws(e) != other
  {
    V7OfIsV7('1');
    V7OfIsV7('2');
    draws, other := (e: Endpoint) => V7Of('1'), V7Of('2');
    assert V7Of('1')[35] != V7Of('2')[35];
  }

  lemma SomeText(inp: Input, draws: Draws) returns (text: string)
    requires NoBadIds(inp) && Drawable(draws)
    ensures OutputWith(inp, draws, text) && IsOutput(inp, text)
  {
    var es, rows, w, a := SomeOutputWith(inp, draws);
    text := Print(Padded(w), QuotedAll(a));
  }

  lemma Finds(inp: Input, es: seq<Endpoint>, rows: seq<Row>, w: Widths, a: seq<Row>, e: Endpoint) returns (i: nat)
    requires IdsGiven(inp) && Collected(inp, es, rows, w) && Covers(inp, es, inp.spec.Keys) && IsEndpoint(inp, e)
    requires multiset(a) == multiset(rows)
    ensures i < |a| && a[i] == RowOf(inp, e)
  {
    Visited(inp, es, e);
    RowsAre(inp, es, rows, w);
    var k :| 0 <= k < |es| && es[k] == e;
    assert rows[k] in rows;
    InBoth(rows, a, rows[k]);
    i :| 0 <= i < |a| && a[i] == rows[k];
  }

  /** Two rows that tie but differ: the same walk may print them either way round. */
  lemma ConflictHasTwoOutputs(inp: Input, e: Endpoint, f: Endpoint)
    requires IdsGiven(inp) && IsEndpoint(inp, e) && IsEndpoint(inp, f) && e.0 == f.0
    requires ToUpper(inp.upper, e.1) == ToUpper(inp.upper, f.1) && RowOf(inp, e) != RowOf(inp, f)
    ensures !OneOutput(inp)
  {
    var es, rows, w, a := SomeOutput(inp);
    var i := Finds(inp, es, rows, w, a, e);
    var j := Finds(inp, es, rows, w, a, f);
    var b := Swapped(a, i, j);
    Arranged(inp, es, rows, w, a);
    Arranged(inp, es, rows, w, b);
    PrintsApart(Padded(w), Padded(w), a, b);
  }

  lemma Swapped(a: seq<Row>, i: nat, j: nat) returns (b: seq<Row>)
    requires Sorted(QuotedAll(a)) && i < |a| && j < |a| && a[i] != a[j]
    requires a[i].path == a[j].path && a[i].verb == a[j].verb
    ensures multiset(b) == multiset(a) && Sorted(QuotedAll(b)) && b != a && b != []
  {
    b := a[i := a[j]][j := a[i]];
    SwapSorted(QuotedAll(a), i, j);
    assert QuotedAll(b) == QuotedAll(a)[i := Quoted(a[j])][j := Quoted(a[i])];
    assert b[j] == a[i];
  }

  lemma PrintsApart(v: Widths, w: Widths, a: seq<Row>, b: seq<Row>)
    requires a != [] && b != [] && a != b
    ensures Print(v, QuotedAll(a)) != Print(w, QuotedAll(b))
  {
    if Print(v, QuotedAll(a)) == Print(w, QuotedAll(b)) {
      PrintInjective(v, w, a, b);
    }
  }

  lemma Arranged(inp: Input, es: seq<Endpoint>, rows: seq<Row>, w: Widths, a: seq<Row>)
    requires Collected(inp, es, rows, w) && Covers(inp, es, inp.spec.Keys)
    requires multiset(a) == multiset(rows) && Sorted(QuotedAll(a))
    ensures IsOutput(inp, Print(Padded(w), QuotedAll(a)))
  {
    SameImages(a, rows, QuotedAll(a), QuotedAll(rows));
    assert Prints(inp, es, rows, w, QuotedAll(a), Print(Padded(w), QuotedAll(a)));
  }

  lemma SwapSorted(q: seq<Record>, i: nat, j: nat)
    requires Sorted(q) && i < |q| && j < |q| && q[i].path == q[j].path && q[i].verb == q[j].verb
    ensures Sorted(q[i := q[j]][j := q[i]])
  {
    var r := q[i := q[j]][j := q[i]];
    forall k ensures 0 <= k < |q| ==> r[k].path == q[k].path && r[k].verb == q[k].verb {}
    forall k, l | 0 <= k < l < |r| ensures Le(r[k], r[l]) {
      assert Le(q[k], q[l]);
    }
  }

  /** With every id given, exactly the ties between different rows make the text vary. */
  lemma GivenOneOutputIff(inp: Input)
    requires IdsGiven(inp)
    ensures OneOutput(inp) <==> NoConflict(inp)
  {
    if NoConflict(inp) {
      forall s, t | IsOutput(inp, s) && IsOutput(inp, t) ensures s == t {
        var es, rows, w, records :| Prints(inp, es, rows, w, records, s);
        var es', rows', w', records' :| Prints(inp, es', rows', w', records', t);
        SameText(inp, es, rows, w, records, s, es', rows', w', records', t);
      }
    } else {
      var e, f :| IsEndpoint(inp, e) && IsEndpoint(inp, f) && e.0 == f.0
        && ToUpper(inp.upper, e.1) == ToUpper(inp.upper, f.1) && RowOf(inp, e) != RowOf(inp, f);
      ConflictHasTwoOutputs(inp, e, f);
    }
  }

  /** A bad id stops the program whatever the order: what is printed has none. */
  lemma OutputHasNoBadIds(inp: Input, text: string)
    requires IsOutput(inp, text)
    ensures NoBadIds(inp)
  {
    var es, rows, w, records :| Prints(inp, es, rows, w, records, text);
    AllIdsFit(inp, es, rows, w);
  }

  /**
   * The generator's text is a function of the specification alone exactly when
   * some id is bad, so that it only ever panics, or every endpoint has its own
   * id and those that agree on the path and the upper-cased method agree on
   * everything.
   */
  lemma OneOutputIff(inp: Input)
    ensures OneOutput(inp) <==> !NoBadIds(inp) || (IdsGiven(inp) && NoConflict(inp))
  {
    forall text | IsOutput(inp, text) ensures NoBadIds(inp) {
      OutputHasNoBadIds(inp, text);
    }
    if IdsGiven(inp) {
      GivenOneOutputIff(inp);
    } else if NoBadIds(inp) {
      var e :| IsEndpoint(inp, e) && !(inp.spec[e.0][e.1].operationId != ""
        && inp.parse(inp.spec[e.0][e.1].operationId).Some?);
      assert !BadId(inp, e);
      MissingIdHasTwoOutputs(inp, e);
    }
  }

  /** One path with the method spelt twice: the comparator ties and the rows differ. */
  function SpeltTwice(upper: char -> char, parse: string -> Option<string>): Input {
    Input(
      map["/a" := map[
        "get" := Operation(V7Of('1'), "first", ""),
        "GET" := Operation(V7Of('2'), "second", "")]],
      upper, parse)
  }

  /** Under any unicode.ToUpper that takes `get` to what it takes `GET` to, and any uuid.Parse that takes both ids. */
  lemma SpeltTwiceHasTwoOutputs(upper: char -> char, parse: string -> Option<string>)
    requires ToUpper(upper, "get") == ToUpper(upper, "GET")
    requires parse(V7Of('1')).Some? && parse(V7Of('2')).Some?
    ensures IdsGiven(SpeltTwice(upper, parse)) && !OneOutput(SpeltTwice(upper, parse))
  {
    var inp := SpeltTwice(upper, parse);
    assert "/a" !in EXCLUDES;
    assert IsEndpoint(inp, ("/a", "get")) && IsEndpoint(inp, ("/a", "GET"));
    assert RowOf(inp, ("/a", "get")).summary == "first";
    ConflictHasTwoOutputs(inp, ("/a", "get"), ("/a", "GET"));
  }

  // ------------------------------------------------- the output, read back

  function Unquote(q: string): string {
    if q == "" then "" else
      match ReadBody(q[1..])
      case None => ""
      case Some((text, _)) => text
  }

  function Unquoted(r: Record): Row {
    Row(Unquote(r.id), Unquote(r.summary), Unquote(r.description), Unquote(r.verb), Unquote(r.path))
  }

  lemma UnquoteQuote(s: string)
    ensures Unquote(SqlQuote(s)) == s
  {
    QuoteReads(s, "");
    assert SqlQuote(s)[1..] == Doubled(s) + "'" + "";
  }

  lemma UnquotedQuoted(r: Row)
    ensures Unquoted(Quoted(r)) == r
  {
    UnquoteQuote(r.id);
    UnquoteQuote(r.summary);
    UnquoteQuote(r.description);
    UnquoteQuote(r.verb);
    UnquoteQuote(r.path);
  }

  /**
   * Whatever the program prints for a specification with at least one endpoint
   * reads back as exactly the rows of its endpoints, each once, in the sorted
   * order.
   */
  lemma OutputReadsBack(
    inp: Input, es: seq<Endpoint>, rows: seq<Row>, w: Widths, records: seq<Record>, text: string)
    returns (sorted: seq<Row>)
    requires Prints(inp, es, rows, w, records, text) && rows != []
    ensures multiset(sorted) == multiset(rows) && Sorted(QuotedAll(sorted))
    ensures ReadRows(text) == Some(AllValues(sorted))
  {
    sorted := RawRows(rows, records);
    PrintThenParse(Padded(w), sorted);
  }

  /** The operations left out: GET on one of the paths that are not under access control. */
  lemma SkippedIff(inp: Input, path: string, verb: string)
    ensures Skipped(inp, path, verb) <==>
      && ToUpper(inp.upper, verb) == "GET"
      && path in {"/ui", "/projects/health", "/permissions/health", "/roles/health", "/tokens/health", "/users/health",
                  "/version", "/health/status"}
  {
  }

  lemma {:induction false} ValuesAt(rows: seq<Row>, i: nat)
    requires i < |rows|
    ensures |AllValues(rows)| == |rows| && AllValues(rows)[i] == ValuesOf(rows[i])
  {
    if i > 0 {
      ValuesAt(rows[1..], i - 1);
    } else if |rows| > 1 {
      ValuesAt(rows[1..], 0);
    }
  }

  /** One row as read back: the six columns of the operation. */
  predicate IsRowFor(inp: Input, path: string, verb: string, row: seq<Value>) {
    && path in inp.spec && verb in inp.spec[path]
    && var op := inp.spec[path][verb];
      && |row| == 6 && row[0].Text?
      && (if op.operationId == "" then IsV7(row[0].text) else inp.parse(op.operationId) == Some(row[0].text))
      && row[1] == Text(op.summary)
      && row[2] == Text(op.description)
      && row[3] == Text(ToUpper(inp.upper, verb))
      && row[4] == Text(path)
      && row[5] == Word("TRUE")
  }

  /**
   * What an SQL reader gets out of any output: one row for every operation that
   * is not left out, with that operation's columns, and no other row.
   */
  lemma OutputColumns(inp: Input, text: string) returns (es: seq<Endpoint>, values: seq<seq<Value>>)
    requires IsOutput(inp, text)
    ensures Distinct(es) && forall path, verb ::
      (path, verb) in es <==> path in inp.spec && verb in inp.spec[path] && !Skipped(inp, path, verb)
    ensures |values| == |es| && forall i | 0 <= i < |es| :: IsRowFor(inp, es[i].0, es[i].1, values[i])
    ensures es == [] ==> text == ""
    ensures es != [] ==> ReadRows(text).Some? && multiset(ReadRows(text).value) == multiset(values)
  {
    var rows: seq<Row>, w: Widths, records: seq<Record>;
    es, rows, w, records :| Prints(inp, es, rows, w, records, text);
    values := AllValues(rows);
    VisitedIff(inp, es, rows, w);
    ValuesOfAll(rows);
    forall i | 0 <= i < |es| ensures IsRowFor(inp, es[i].0, es[i].1, values[i]) {
      RowReadFor(inp, es[i], rows[i]);
    }
    if es == [] {
      assert |records| == |multiset(records)| == 0;
    } else {
      ReadAsValues(inp, es, rows, w, records, text);
    }
  }

  lemma VisitedIff(inp: Input, es: seq<Endpoint>, rows: seq<Row>, w: Widths)
    requires Collected(inp, es, rows, w) && Covers(inp, es, inp.spec.Keys)
    ensures forall path, verb ::
      (path, verb) in es <==> path in inp.spec && verb in inp.spec[path] && !Skipped(inp, path, verb)
  {
    forall path, verb | IsEndpoint(inp, (path, verb)) ensures (path, verb) in es {
      Visited(inp, es, (path, verb));
    }
  }

  lemma RowReadFor(inp: Input, e: Endpoint, row: Row)
    requires IsEndpoint(inp, e) && IdFits(inp, e, row.id) && row == RowFor(inp, e, row.id)
    ensures IsRowFor(inp, e.0, e.1, ValuesOf(row))
  {
  }

  lemma ReadAsValues(inp: Input, es: seq<Endpoint>, rows: seq<Row>, w: Widths, records: seq<Record>, text: string)
    requires Prints(inp, es, rows, w, records, text) && rows != []
    ensures ReadRows(text).Some? && multiset(ReadRows(text).value) == multiset(AllValues(rows))
  {
    var sorted := OutputReadsBack(inp, es, rows, w, records, text);
    assert |sorted| == |multiset(sorted)| == |multiset(rows)| == |rows|;
    ValuesOfAll(rows);
    ValuesOfAll(sorted);
    SameImages(sorted, rows, AllValues(sorted), AllValues(rows));
  }

  lemma ValuesOfAll(rows: seq<Row>)
    ensures |AllValues(rows)| == |rows| && forall i | 0 <= i < |rows| :: AllValues(rows)[i] == ValuesOf(rows[i])
  {
    if rows != [] {
      ValuesAt(rows, 0);
    }
    forall i | 0 <= i < |rows| ensures AllValues(rows)[i] == ValuesOf(rows[i]) {
      ValuesAt(rows, i);
    }
  }

  /** The rows a permutation of their quoted records stands for. */
  lemma RawRows(rows: seq<Row>, records: seq<Record>) returns (sorted: seq<Row>)
    requires multiset(records) == multiset(QuotedAll(rows))
    ensures multiset(sorted) == multiset(rows) && QuotedAll(sorted) == records
    ensures |sorted| == |rows|
  {
    var q := QuotedAll(rows);
    assert |records| == |multiset(records)| == |multiset(q)| == |q|;
    sorted := seq(|records|, i requires 0 <= i < |records| => Unquoted(records[i]));
    forall j | 0 <= j < |q| ensures Unquoted(q[j]) == rows[j] { UnquotedQuoted(rows[j]); }
    SameImages(records, q, sorted, rows);
    forall i | 0 <= i < |records| ensures Quoted(sorted[i]) == records[i] {
      assert records[i] in records;
      InBoth(records, q, records[i]);
      var j :| 0 <= j < |q| && q[j] == records[i];
    }
  }

  // ------------------------------------------------------------------ columns

  function Apostrophes(s: string): nat {
    if s == "" then 0 else (if s[0] == '\'' then 1 else 0) + Apostrophes(s[1..])
  }

  lemma {:induction false} DoubledLength(s: string)
    ensures |Doubled(s)| == |s| + Apostrophes(s)
  {
    if s != "" {
      DoubledLength(s[1..]);
    }
  }

  /** The runes of a field, each apostrophe twice, do not exceed the widest field's bytes. */
  predicate FieldsFit(r: Row, w: Widths) {
    && |r.id| + Apostrophes(r.id) <= w.id
    && |r.summary| + Apostrophes(r.summary) <= w.summary
    && |r.description| + Apostrophes(r.description) <= w.description
    && |r.verb| + Apostrophes(r.verb) <= w.verb
    && |r.path| + Apostrophes(r.path) <= w.path
  }

  function LineLength(w: Widths): nat {
    w.id + w.summary + w.description + w.verb + w.path + w.system + 14
  }

  lemma PadLength(width: nat, s: string)
    ensures |Pad(width, SqlQuote(s))| >= width
    ensures width >= 2 ==> (|Pad(width, SqlQuote(s))| == width <==> |s| + Apostrophes(s) <= width - 2)
  {
    DoubledLength(s);
  }

  lemma JoinedSix(c: seq<string>)
    requires |c| == 6
    ensures |Joined(c)| == |c[0]| + |c[1]| + |c[2]| + |c[3]| + |c[4]| + |c[5]| + 10
  {
    assert |Joined(c[1..][1..][1..][1..][1..])| == |c[5]|;
    assert |Joined(c[1..][1..][1..][1..])| == |c[4]| + 2 + |c[5]|;
    assert |Joined(c[1..][1..][1..])| == |c[3]| + 2 + |Joined(c[1..][1..][1..][1..])|;
    assert |Joined(c[1..][1..])| == |c[2]| + 2 + |Joined(c[1..][1..][1..])|;
    assert |Joined(c[1..])| == |c[1]| + 2 + |Joined(c[1..][1..])|;
  }

  /** A printed row has the table's length exactly when its fields fit; it is never shorter. */
  lemma LineLengthIff(w: Widths, r: Row, last: bool)
    requires w.system >= 4
    ensures |PrintRow(Padded(w), Quoted(r), last)| >= LineLength(Padded(w))
    ensures |PrintRow(Padded(w), Quoted(r), last)| == LineLength(Padded(w)) <==> FieldsFit(r, w)
  {
    PadLength(w.id + 2, r.id);
    PadLength(w.summary + 2, r.summary);
    PadLength(w.description + 2, r.description);
    PadLength(w.verb + 2, r.verb);
    PadLength(w.path + 2, r.path);
    JoinedSix(Cells(Padded(w), Quoted(r)));
  }

  /** A column that is as wide as its title, or as the longest entry below it. */
  ghost predicate IsWidth(title: string, entries: seq<string>, width: nat) {
    && |title| <= width && (forall s | s in entries :: ByteLen(s) <= width)
    && (width == |title| || exists s :: s in entries && ByteLen(s) == width)
  }

  /** Before the padding each column is as wide as its title or the most bytes in it, of the method as it is spelt. */
  lemma ColumnWidths(inp: Input, es: seq<Endpoint>, rows: seq<Row>, w: Widths)
    requires Collected(inp, es, rows, w)
    ensures IsWidth("ID", seq(|rows|, i requires 0 <= i < |rows| => rows[i].id), w.id)
    ensures IsWidth("Summary", seq(|rows|, i requires 0 <= i < |rows| => rows[i].summary), w.summary)
    ensures IsWidth("Description", seq(|rows|, i requires 0 <= i < |rows| => rows[i].description), w.description)
    ensures IsWidth("Method", seq(|es|, i requires 0 <= i < |es| => es[i].1), w.verb)
    ensures IsWidth("Path", seq(|es|, i requires 0 <= i < |es| => es[i].0), w.path)
    ensures w.system == |"System"|
  {
    assert TITLES in AllLengths(es, rows);
    IdWidth(es, rows, w);
    SummaryWidth(es, rows, w);
    DescriptionWidth(es, rows, w);
    VerbWidth(es, rows, w);
    PathWidth(es, rows, w);
  }

  lemma IdWidth(es: seq<Endpoint>, rows: seq<Row>, w: Widths)
    requires |es| == |rows| && Widest(w, AllLengths(es, rows))
    ensures IsWidth("ID", seq(|rows|, i requires 0 <= i < |rows| => rows[i].id), w.id)
  {
    var column := (l: Widths) => l.id;
    assert exists l :: l in AllLengths(es, rows) && column(l) == w.id;
    WidthFrom(es, rows, column, "ID", seq(|rows|, i requires 0 <= i < |rows| => rows[i].id), w.id);
  }

  lemma SummaryWidth(es: seq<Endpoint>, rows: seq<Row>, w: Widths)
    requires |es| == |rows| && Widest(w, AllLengths(es, rows))
    ensures IsWidth("Summary", seq(|rows|, i requires 0 <= i < |rows| => rows[i].summary), w.summary)
  {
    var column := (l: Widths) => l.summary;
    assert exists l :: l in AllLengths(es, rows) && column(l) == w.summary;
    WidthFrom(es, rows, column, "Summary", seq(|rows|, i requires 0 <= i < |rows| => rows[i].summary), w.summary);
  }

  lemma DescriptionWidth(es: seq<Endpoint>, rows: seq<Row>, w: Widths)
    requires |es| == |rows| && Widest(w, AllLengths(es, rows))
    ensures IsWidth("Description", seq(|rows|, i requires 0 <= i < |rows| => rows[i].description), w.description)
  {
    var column := (l: Widths) => l.description;
    assert exists l :: l in AllLengths(es, rows) && column(l) == w.description;
    WidthFrom(
      es, rows, column, "Description", seq(|rows|, i requires 0 <= i < |rows| => rows[i].description), w.description);
  }

  lemma VerbWidth(es: seq<Endpoint>, rows: seq<Row>, w: Widths)
    requires |es| == |rows| && Widest(w, AllLengths(es, rows))
    ensures IsWidth("Method", seq(|es|, i requires 0 <= i < |es| => es[i].1), w.verb)
  {
    var column := (l: Widths) => l.verb;
    assert exists l :: l in AllLengths(es, rows) && column(l) == w.verb;
    WidthFrom(es, rows, column, "Method", seq(|es|, i requires 0 <= i < |es| => es[i].1), w.verb);
  }

  lemma PathWidth(es: seq<Endpoint>, rows: seq<Row>, w: Widths)
    requires |es| == |rows| && Widest(w, AllLengths(es, rows))
    ensures IsWidth("Path", seq(|es|, i requires 0 <= i < |es| => es[i].0), w.path)
  {
    var column := (l: Widths) => l.path;
    assert exists l :: l in AllLengths(es, rows) && column(l) == w.path;
    WidthFrom(es, rows, column, "Path", seq(|es|, i requires 0 <= i < |es| => es[i].0), w.path);
  }

  lemma WidthFrom(
    es: seq<Endpoint>, rows: seq<Row>, column: Widths -> nat, title: string, entries: seq<string>, width: nat)
    requires |es| == |rows| == |entries| && column(TITLES) == |title|
    requires forall i | 0 <= i < |es| :: column(Lengths(es[i], rows[i])) == ByteLen(entries[i])
    requires forall l | l in AllLengths(es, rows) :: column(l) <= width
    requires exists l :: l in AllLengths(es, rows) && column(l) == width
    ensures IsWidth(title, entries, width)
  {
    var ls := AllLengths(es, rows);
    assert TITLES in ls;
    forall s | s in entries ensures ByteLen(s) <= width {
      var i :| 0 <= i < |entries| && entries[i] == s;
      assert Lengths(es[i], rows[i]) in ls;
    }
    WidthReached(es, rows, column, title, entries, width);
  }

  lemma WidthReached(
    es: seq<Endpoint>, rows: seq<Row>, column: Widths -> nat, title: string, entries: seq<string>, width: nat)
    requires |es| == |rows| == |entries| && column(TITLES) == |title|
    requires forall i | 0 <= i < |es| :: column(Lengths(es[i], rows[i])) == ByteLen(entries[i])
    requires exists l :: l in AllLengths(es, rows) && column(l) == width
    ensures width == |title| || exists s :: s in entries && ByteLen(s) == width
  {
    var l :| l in AllLengths(es, rows) && column(l) == width;
    if l != TITLES {
      var i :| 0 <= i < |es| && l == Lengths(es[i], rows[i]);
      assert entries[i] in entries;
    }
  }

  /** Without apostrophes every row of every output fits its columns, whatever the scripts used. */
  lemma RowsLineUp(
    inp: Input, es: seq<Endpoint>, rows: seq<Row>, w: Widths, i: nat)
    requires Collected(inp, es, rows, w) && i < |rows|
    requires var r := rows[i];
      && Apostrophes(r.id) == Apostrophes(r.summary) == Apostrophes(r.description) == 0
      && Apostrophes(r.verb) == Apostrophes(r.path) == 0
    ensures FieldsFit(rows[i], w)
    ensures |PrintRow(Padded(w), Quoted(rows[i]), i + 1 == |rows|)| == LineLength(Padded(w))
  {
    assert Lengths(es[i], rows[i]) in AllLengths(es, rows);
    assert TITLES in AllLengths(es, rows);
    assert Fits(Lengths(es[i], rows[i]), w) && Fits(TITLES, w);
    LineLengthIff(w, rows[i], i + 1 == |rows|);
  }
}
