/** The functions of Go's strings package the configuration formats are built from. */
module Strings {
  /** unicode.IsSpace. */
  predicate IsSpace(c: char) {
    || '\t' <= c <= '\r' || c == ' ' || c == '\U{85}' || c == '\U{A0}' || c == '\U{1680}'
    || '\U{2000}' <= c <= '\U{200A}' || c == '\U{2028}' || c == '\U{2029}' || c == '\U{202F}'
    || c == '\U{205F}' || c == '\U{3000}'
  }

  predicate IsQuote(c: char) {
    c == '"'
  }

  function TrimLeft(cut: char -> bool, s: string): (r: string)
    ensures |r| <= |s| && r == s[|s| - |r|..]
    ensures r == "" || !cut(r[0])
  {
    if s != "" && cut(s[0]) then TrimLeft(cut, s[1..]) else s
  }

  function TrimRight(cut: char -> bool, s: string): (r: string)
    ensures |r| <= |s| && r == s[..|r|]
    ensures r == "" || !cut(r[|r| - 1])
  {
    if s != "" && cut(s[|s| - 1]) then TrimRight(cut, s[..|s| - 1]) else s
  }

  function Trim(cut: char -> bool, s: string): (r: string)
    ensures forall c | c in r :: c in s
    ensures |r| <= |s| && Trimmed(cut, r)
  {
    var l := TrimLeft(cut, s);
    var r := TrimRight(cut, l);
    assert r != "" ==> r[0] == l[0];
    r
  }

  function TrimSpace(s: string): string {
    Trim(IsSpace, s)
  }

  /** Nothing to trim at either end. */
  predicate Trimmed(cut: char -> bool, s: string) {
    s == "" || (!cut(s[0]) && !cut(s[|s| - 1]))
  }

  lemma TrimTrims(cut: char -> bool, s: string)
    ensures Trim(cut, s) == s <==> Trimmed(cut, s)
  {
  }

  ghost predicate AllCut(cut: char -> bool, s: string) {
    forall i | 0 <= i < |s| :: cut(s[i])
  }

  lemma {:induction false} TrimLeftDrops(cut: char -> bool, a: string, rest: string)
    requires AllCut(cut, a) && (rest == "" || !cut(rest[0]))
    ensures TrimLeft(cut, a + rest) == rest
  {
    if a == "" {
      assert a + rest == rest;
    } else {
      assert (a + rest)[0] == a[0] && (a + rest)[1..] == a[1..] + rest;
      TrimLeftDrops(cut, a[1..], rest);
    }
  }

  lemma {:induction false} TrimRightDrops(cut: char -> bool, kept: string, b: string)
    requires AllCut(cut, b) && (kept == "" || !cut(kept[|kept| - 1]))
    ensures TrimRight(cut, kept + b) == kept
    decreases |b|
  {
    if b == "" {
      assert kept + b == kept;
    } else {
      var n := |b| - 1;
      assert (kept + b)[|kept + b| - 1] == b[n] && (kept + b)[..|kept + b| - 1] == kept + b[..n];
      TrimRightDrops(cut, kept, b[..n]);
    }
  }

  /** Trimming takes off what is to be cut at both ends, all of it and nothing else. */
  lemma TrimDropsEnds(cut: char -> bool, a: string, kept: string, b: string)
    requires AllCut(cut, a) && AllCut(cut, b) && Trimmed(cut, kept)
    ensures Trim(cut, a + kept + b) == kept
  {
    if kept == "" {
      assert a + kept + b == (a + b) + "";
      TrimLeftDrops(cut, a + b, "");
    } else {
      assert a + kept + b == a + (kept + b);
      TrimLeftDrops(cut, a, kept + b);
      TrimRightDrops(cut, kept, b);
    }
  }

  /** The first position of `c`, or the length. */
  function Index(s: string, c: char): (i: nat)
    ensures i <= |s| && c !in s[..i] && (i < |s| ==> s[i] == c)
  {
    if s == "" || s[0] == c then 0
    else
      var i := 1 + Index(s[1..], c);
      assert s[..i] == [s[0]] + s[1..][..i - 1];
      i
  }

  function Split(s: string, c: char): (r: seq<string>)
    ensures r != []
    decreases |s|
  {
    var i := Index(s, c);
    if i == |s| then [s] else [s[..i]] + Split(s[i + 1..], c)
  }

  /** At most n pieces; the last one is whatever is left. */
  function SplitN(s: string, c: char, n: nat): (r: seq<string>)
    requires n > 0
    ensures 1 <= |r| <= n
  {
    var i := Index(s, c);
    if n == 1 || i == |s| then [s] else [s[..i]] + SplitN(s[i + 1..], c, n - 1)
  }

  function Join(parts: seq<string>, c: char): string {
    if parts == [] then ""
    else if |parts| == 1 then parts[0]
    else parts[0] + [c] + Join(parts[1..], c)
  }

  function Count(s: string, c: char): nat {
    if s == "" then 0 else (if s[0] == c then 1 else 0) + Count(s[1..], c)
  }

  lemma {:induction false} IndexOf(s: string, c: char, rest: string)
    requires c !in s
    ensures Index(s + [c] + rest, c) == |s|
    ensures (s + [c] + rest)[..|s|] == s && (s + [c] + rest)[|s| + 1..] == rest
  {
    if s != "" {
      assert (s + [c] + rest)[1..] == s[1..] + [c] + rest;
      IndexOf(s[1..], c, rest);
    }
  }

  lemma IndexAbsent(s: string, c: char)
    requires c !in s
    ensures Index(s, c) == |s|
  {
  }

  lemma JoinCons(p: string, parts: seq<string>, c: char)
    requires parts != []
    ensures Join([p] + parts, c) == p + [c] + Join(parts, c)
  {
    assert ([p] + parts)[0] == p && ([p] + parts)[1..] == parts;
  }

  lemma JoinOne(p: string, c: char)
    ensures Join([p], c) == p
  {
  }

  /** One unfolding of Split: the first piece, and the split of what follows the separator. */
  lemma SplitAt(p: string, c: char, rest: string)
    requires c !in p
    ensures Split(p + [c] + rest, c) == [p] + Split(rest, c)
  {
    IndexOf(p, c, rest);
  }

  lemma SplitNone(p: string, c: char)
    requires c !in p
    ensures Split(p, c) == [p]
  {
    IndexAbsent(p, c);
  }

  /** A text has no separator, or is cut at its first one. */
  lemma FirstCut(s: string, c: char) returns (p: string, rest: string)
    ensures c !in p && (c in s ==> s == p + [c] + rest && |rest| < |s|) && (c !in s ==> p == s)
  {
    var i := Index(s, c);
    p, rest := s[..i], if i < |s| then s[i + 1..] else "";
  }

  lemma {:induction false} SplitJoin(parts: seq<string>, c: char)
    requires parts != [] && forall p | p in parts :: c !in p
    ensures Split(Join(parts, c), c) == parts
    decreases |parts|
  {
    var (p, rest) := (parts[0], parts[1..]);
    assert p in parts && parts == [p] + rest;
    if rest == [] {
      JoinOne(p, c);
      SplitNone(p, c);
    } else {
      JoinCons(p, rest, c);
      SplitJoin(rest, c);
      SplitAt(p, c, Join(rest, c));
    }
  }

  /** The pieces hold every character but the separator, and nothing else. */
  lemma SplitPieces(s: string, c: char)
    ensures forall p | p in Split(s, c) :: c !in p && forall d | d in p :: d in s
    ensures Join(Split(s, c), c) == s
  {
    forall p | p in Split(s, c) ensures c !in p && forall d | d in p :: d in s {
      OnePiece(s, c, p);
    }
    JoinSplit(s, c);
  }

  lemma {:induction false} JoinSplit(s: string, c: char)
    ensures Join(Split(s, c), c) == s
    decreases |s|
  {
    var p, rest := FirstCut(s, c);
    if c in s {
      SplitAt(p, c, rest);
      JoinSplit(rest, c);
      JoinCons(p, Split(rest, c), c);
    } else {
      SplitNone(p, c);
      JoinOne(p, c);
    }
  }

  lemma {:induction false} OnePiece(s: string, c: char, q: string)
    requires q in Split(s, c)
    ensures c !in q && forall d | d in q :: d in s
    decreases |s|
  {
    var p, rest := FirstCut(s, c);
    if c in s {
      SplitAt(p, c, rest);
      if q != p {
        OnePiece(rest, c, q);
      }
    } else {
      SplitNone(p, c);
    }
  }

  lemma {:induction false} SplitNJoin(parts: seq<string>, c: char, n: nat)
    requires |parts| == n > 0 && forall i | 0 <= i < n - 1 :: c !in parts[i]
    ensures SplitN(Join(parts, c), c, n) == parts
    decreases n
  {
    if n > 1 {
      IndexOf(parts[0], c, Join(parts[1..], c));
      SplitNJoin(parts[1..], c, n - 1);
    }
  }

  lemma {:induction false} SplitNPieces(s: string, c: char, n: nat)
    requires n > 0
    ensures forall i | 0 <= i < |SplitN(s, c, n)| - 1 :: c !in SplitN(s, c, n)[i]
    ensures forall p | p in SplitN(s, c, n) :: forall d | d in p :: d in s
    decreases n
  {
    var i := Index(s, c);
    if n > 1 && i < |s| {
      SplitNPieces(s[i + 1..], c, n - 1);
    }
  }

  lemma {:induction false} CountAbsent(s: string, c: char)
    ensures Count(s, c) == 0 <==> c !in s
  {
    if s != "" {
      CountAbsent(s[1..], c);
    }
  }

  lemma {:induction false} CountCut(s: string, c: char, i: nat)
    requires i < |s| && s[i] == c && c !in s[..i]
    ensures Count(s, c) == 1 + Count(s[i + 1..], c)
  {
    if i > 0 {
      assert s[..i] == [s[0]] + s[1..][..i - 1];
      CountCut(s[1..], c, i - 1);
      assert s[1..][i..] == s[i + 1..];
    }
  }

  /** All n pieces are there exactly when the separator occurs n - 1 times. */
  lemma {:induction false} SplitNFull(s: string, c: char, n: nat)
    requires n > 0
    ensures |SplitN(s, c, n)| == n <==> Count(s, c) >= n - 1
    decreases n
  {
    var i := Index(s, c);
    if i == |s| {
      assert s[..i] == s;
      CountAbsent(s, c);
    } else if n > 1 {
      CountCut(s, c, i);
      SplitNFull(s[i + 1..], c, n - 1);
    }
  }
}
