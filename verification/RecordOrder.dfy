/** The order the generator sorts by, and why it leaves nothing to chance. */
module RecordOrder {
  import opened ApiEndpoints

  /** cmp.Compare on strings: lexicographic, a proper prefix first. */
  function Cmp(a: string, b: string): int {
    if a == "" then (if b == "" then 0 else -1)
    else if b == "" then 1
    else if a[0] < b[0] then -1
    else if b[0] < a[0] then 1
    else Cmp(a[1..], b[1..])
  }

  lemma {:induction false} CmpFlips(a: string, b: string)
    ensures Cmp(a, b) == -Cmp(b, a)
  {
    if a != "" && b != "" && a[0] == b[0] {
      CmpFlips(a[1..], b[1..]);
    }
  }

  lemma {:induction false} CmpZero(a: string, b: string)
    ensures Cmp(a, b) == 0 <==> a == b
  {
    if a != "" && b != "" && a[0] == b[0] {
      CmpZero(a[1..], b[1..]);
      assert a == [a[0]] + a[1..] && b == [b[0]] + b[1..];
    }
  }

  lemma {:induction false} CmpTransitive(a: string, b: string, c: string)
    requires Cmp(a, b) <= 0 && Cmp(b, c) <= 0
    ensures Cmp(a, c) <= 0
    ensures Cmp(a, b) < 0 || Cmp(b, c) < 0 ==> Cmp(a, c) < 0
  {
    if a != "" && b != "" && c != "" && a[0] == b[0] == c[0] {
      CmpTransitive(a[1..], b[1..], c[1..]);
    }
  }

  /** `a` comes first where the two part: it ends there, or has the smaller character. */
  predicate PartsAt(a: string, b: string, i: nat) {
    i <= |a| && i < |b| && a[..i] == b[..i] && (i == |a| || a[i] < b[i])
  }

  /** The order is the lexicographic one. */
  lemma {:induction false} CmpIsLexicographic(a: string, b: string)
    ensures Cmp(a, b) < 0 <==> exists i: nat :: PartsAt(a, b, i)
  {
    if a == "" {
      assert b != "" ==> PartsAt(a, b, 0);
    } else if b != "" && a[0] == b[0] {
      CmpIsLexicographic(a[1..], b[1..]);
      if Cmp(a, b) < 0 {
        var i: nat :| PartsAt(a[1..], b[1..], i);
        assert a[..i + 1] == [a[0]] + a[1..][..i] && b[..i + 1] == [b[0]] + b[1..][..i];
        assert PartsAt(a, b, i + 1);
      }
      forall i: nat | PartsAt(a, b, i) ensures i > 0 && PartsAt(a[1..], b[1..], i - 1) {
        assert a[..i] == [a[0]] + a[1..][..i - 1] && b[..i] == [b[0]] + b[1..][..i - 1];
      }
    } else if b != "" {
      assert a[0] < b[0] ==> PartsAt(a, b, 0);
      assert forall i: nat :: PartsAt(a, b, i) && i > 0 ==> a[..i][0] == b[..i][0];
    }
  }

  /** cmp.Or of the two comparisons: by path, then by method. */
  function Compare(a: Record, b: Record): int {
    if Cmp(a.path, b.path) != 0 then Cmp(a.path, b.path) else Cmp(a.verb, b.verb)
  }

  predicate Le(a: Record, b: Record) {
    Compare(a, b) <= 0
  }

  lemma LeTotal(a: Record, b: Record)
    ensures Le(a, b) || Le(b, a)
    ensures Le(a, b) && Le(b, a) <==> a.path == b.path && a.verb == b.verb
  {
    CmpFlips(a.path, b.path);
    CmpFlips(a.verb, b.verb);
    CmpZero(a.path, b.path);
    CmpZero(a.verb, b.verb);
  }

  lemma LeTransitive(a: Record, b: Record, c: Record)
    requires Le(a, b) && Le(b, c)
    ensures Le(a, c)
  {
    CmpZero(a.path, b.path);
    CmpZero(b.path, c.path);
    if Cmp(a.path, b.path) < 0 || Cmp(b.path, c.path) < 0 {
      CmpTransitive(a.path, b.path, c.path);
    } else {
      CmpTransitive(a.verb, b.verb, c.verb);
    }
  }

  ghost predicate SortedBy<T>(le: (T, T) -> bool, s: seq<T>) {
    forall i, j | 0 <= i < j < |s| :: le(s[i], s[j])
  }

  ghost predicate Sorted(s: seq<Record>) {
    SortedBy(Le, s)
  }

  /** Records that tie are the same record. */
  ghost predicate NoTies(s: seq<Record>) {
    forall a, b | a in s && b in s && a.path == b.path && a.verb == b.verb :: a == b
  }

  lemma HeadIsLeast(s: seq<Record>, x: Record)
    requires Sorted(s) && x in s
    ensures Le(s[0], x)
  {
    LeTotal(x, x);
    var i :| 0 <= i < |s| && s[i] == x;
  }

  lemma InBoth<T>(a: seq<T>, b: seq<T>, x: T)
    requires multiset(a) == multiset(b) && x in a
    ensures x in b
  {
    assert x in multiset(a);
  }

  lemma SameHead(a: seq<Record>, b: seq<Record>)
    requires Sorted(a) && Sorted(b) && multiset(a) == multiset(b) && NoTies(a) && a != [] && b != []
    ensures a[0] == b[0]
  {
    InBoth(a, b, a[0]);
    InBoth(b, a, b[0]);
    HeadIsLeast(a, b[0]);
    HeadIsLeast(b, a[0]);
    LeTotal(a[0], b[0]);
  }

  lemma TailHolds(a: seq<Record>)
    requires a != []
    ensures a == [a[0]] + a[1..] && multiset(a[1..]) == multiset(a) - multiset{a[0]}
  {
    assert a == [a[0]] + a[1..];
  }

  /** Without ties, a list of records has one sorted arrangement. */
  lemma {:induction false} SortedIsUnique(a: seq<Record>, b: seq<Record>)
    requires Sorted(a) && Sorted(b) && multiset(a) == multiset(b) && NoTies(a)
    ensures a == b
    decreases |a|
  {
    assert |a| == |multiset(a)| && |b| == |multiset(b)|;
    if a != [] {
      SameHead(a, b);
      TailHolds(a);
      TailHolds(b);
      SortedIsUnique(a[1..], b[1..]);
    }
  }

  /** slices.SortFunc, of which only this is relied on: a sorted arrangement, ties in any order. */
  method SortFunc(records: seq<Record>) returns (sorted: seq<Record>)
    ensures Sorted(sorted) && multiset(sorted) == multiset(records)
  {
    sorted := [];
    for i := 0 to |records|
      invariant Sorted(sorted) && multiset(sorted) == multiset(records[..i])
    {
      assert records[..i + 1] == records[..i] + [records[i]];
      sorted := Insert(sorted, records[i]);
    }
    assert records[..|records|] == records;
  }

  method Insert(s: seq<Record>, x: Record) returns (r: seq<Record>)
    requires Sorted(s)
    ensures Sorted(r) && multiset(r) == multiset(s) + multiset{x}
  {
    var k := |s|;
    while k > 0 && Compare(s[k - 1], x) > 0
      invariant 0 <= k <= |s|
      invariant forall j | k <= j < |s| :: Le(x, s[j])
    {
      LeTotal(s[k - 1], x);
      k := k - 1;
    }
    BelowToo(s, k, x);
    SplitAt(Le, s, k, x);
    r := s[..k] + [x] + s[k..];
  }

  lemma BelowToo(s: seq<Record>, k: nat, x: Record)
    requires Sorted(s) && k <= |s| && (k > 0 ==> Le(s[k - 1], x))
    ensures forall j | 0 <= j < k :: Le(s[j], x)
  {
    forall j | 0 <= j < k ensures Le(s[j], x) {
      if j < k - 1 {
        LeTransitive(s[j], s[k - 1], x);
      }
    }
  }

  lemma SplitAt<T>(le: (T, T) -> bool, s: seq<T>, k: nat, x: T)
    requires SortedBy(le, s) && k <= |s|
    requires forall j | 0 <= j < k :: le(s[j], x)
    requires forall j | k <= j < |s| :: le(x, s[j])
    ensures SortedBy(le, s[..k] + [x] + s[k..])
    ensures multiset(s[..k] + [x] + s[k..]) == multiset(s) + multiset{x}
  {
    assert s == s[..k] + s[k..];
  }

  // --------------------------------------------- quoting against the raw order

  /** `b` continues `a` with a character that sorts before the closing quote. */
  predicate Undercuts(a: string, b: string) {
    |a| < |b| && b[..|a|] == a && b[|a|] < '\''
  }

  lemma UndercutsTail(a: string, b: string)
    requires a != "" && b != "" && a[0] == b[0]
    ensures Undercuts(a, b) <==> Undercuts(a[1..], b[1..])
  {
    if |a| <= |b| {
      assert b[..|a|] == [b[0]] + b[1..][..|a| - 1] && a == [a[0]] + a[1..];
    }
  }

  lemma {:induction false} BodyOrder(a: string, b: string)
    ensures Cmp(Doubled(a) + "'", Doubled(b) + "'") == Cmp(a, b)
      <==> !Undercuts(a, b) && !Undercuts(b, a)
  {
    var x, y := Doubled(a) + "'", Doubled(b) + "'";
    if a == "" && b == "" {
      CmpZero(x, y);
    } else if a == "" {
      EndAgainst(b);
    } else if b == "" {
      EndAgainst(a);
      CmpFlips(x, y);
    } else if a[0] == b[0] {
      BodyOrder(a[1..], b[1..]);
      UndercutsTail(a, b);
      UndercutsTail(b, a);
      var s, t := Doubled(a[1..]) + "'", Doubled(b[1..]) + "'";
      if a[0] == '\'' {
        assert x == "''" + s && y == "''" + t;
        assert x[1..] == "'" + s && y[1..] == "'" + t && x[1..][1..] == s && y[1..][1..] == t;
      } else {
        assert x == [a[0]] + s && y == [b[0]] + t;
        assert x[1..] == s && y[1..] == t;
      }
    } else {
      assert x[0] == a[0] && y[0] == b[0];
      assert |a| <= |b| ==> b[..|a|][0] == b[0];
      assert |b| <= |a| ==> a[..|b|][0] == a[0];
    }
  }

  lemma EndAgainst(b: string)
    requires b != ""
    ensures Cmp("'", Doubled(b) + "'") == (if b[0] < '\'' then 1 else -1)
    ensures Undercuts("", b) <==> b[0] < '\''
  {
    var y := Doubled(b) + "'";
    assert b[..0] == "" && "'"[1..] == "";
    if b[0] == '\'' {
      assert y == "''" + (Doubled(b[1..]) + "'") && y[1..] != "";
    }
  }

  /**
   * Quoting keeps the order of two strings exactly when neither continues the
   * other with a character below the quote.
   */
  lemma QuotedOrderIff(a: string, b: string)
    ensures Cmp(SqlQuote(a), SqlQuote(b)) == Cmp(a, b) <==> !Undercuts(a, b) && !Undercuts(b, a)
  {
    BodyOrder(a, b);
    assert SqlQuote(a) == "'" + (Doubled(a) + "'") && SqlQuote(b) == "'" + (Doubled(b) + "'");
    assert SqlQuote(a)[1..] == Doubled(a) + "'" && SqlQuote(b)[1..] == Doubled(b) + "'";
  }

  ghost predicate AtOrAboveQuote(s: string) {
    forall i | 0 <= i < |s| :: s[i] >= '\''
  }

  /** A list sorted by quoted fields is in raw (path, method) order when no path or method dips below the quote. */
  lemma SortedRawly(rows: seq<Row>, i: nat, j: nat)
    requires Sorted(QuotedAll(rows)) && i < j < |rows|
    requires forall r | r in rows :: AtOrAboveQuote(r.path) && AtOrAboveQuote(r.verb)
    ensures Cmp(rows[i].path, rows[j].path) < 0
      || (rows[i].path == rows[j].path && Cmp(rows[i].verb, rows[j].verb) <= 0)
  {
    var a, b := rows[i], rows[j];
    assert a in rows && b in rows;
    QuotedOrderIff(a.path, b.path);
    QuotedOrderIff(a.verb, b.verb);
    assert Le(QuotedAll(rows)[i], QuotedAll(rows)[j]);
    CmpZero(a.path, b.path);
  }
}
