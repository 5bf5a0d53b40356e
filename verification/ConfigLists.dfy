/** The two list settings: identity providers, and additional public key files. */
module ConfigLists {
  import opened Wrappers
  import opened Strings

  datatype IDP = IDP(
    name: string, callbackURL: string, loginRedirectURL: string, registerRedirectURL: string,
    clientID: string, clientSecret: string)

  /** How many parts an entry is split into. */
  const IDP_PARTS: nat := 6

  function Fields(p: IDP): seq<string> {
    [p.name, p.callbackURL, p.loginRedirectURL, p.registerRedirectURL, p.clientID, p.clientSecret]
  }

  function PrintIDP(p: IDP): string {
    p.name + "#" + p.callbackURL + "#" + p.loginRedirectURL + "#" + p.registerRedirectURL + "#"
      + p.clientID + "#" + p.clientSecret
  }

  function PrintedAll(l: seq<IDP>): (r: seq<string>)
    ensures |r| == |l| && forall i | 0 <= i < |l| :: r[i] == PrintIDP(l[i])
  {
    seq(|l|, i requires 0 <= i < |l| => PrintIDP(l[i]))
  }

  function StringOf(l: seq<IDP>): string {
    Join(PrintedAll(l), ',')
  }

  /** One comma-separated piece, or None when it has fewer than six parts. */
  function ParseIDP(part: string): Option<IDP> {
    var parts := SplitN(part, '#', IDP_PARTS);
    if |parts| != 6 then None
    else Some(FromParts(parts))
  }

  function FromParts(parts: seq<string>): IDP
    requires |parts| == 6
  {
    IDP(
      TrimSpace(parts[0]), TrimSpace(parts[1]), TrimSpace(parts[2]), TrimSpace(parts[3]),
      TrimSpace(parts[4]), TrimSpace(parts[5]))
  }

  /** The six parts of a piece in the order of the fields, trimmed, whatever the last one holds. */
  lemma PartsInOrder(
    name: string, callback: string, login: string, register: string, client: string, secret: string)
    requires forall s | s in {name, callback, login, register, client} :: '#' !in s
    ensures ParseIDP(name + "#" + callback + "#" + login + "#" + register + "#" + client + "#" + secret) ==
      Some(IDP(TrimSpace(name), TrimSpace(callback), TrimSpace(login), TrimSpace(register), TrimSpace(client),
               TrimSpace(secret)))
  {
    var p := IDP(name, callback, login, register, client, secret);
    PrintIsJoin(p);
    SplitNJoin(Fields(p), '#', IDP_PARTS);
  }

  /** What Set leaves behind: the receiver's entries, and whether it succeeded. */
  datatype SetResult<T> = SetResult(entries: seq<T>, ok: bool)

  /** Parses pieces in order and stops at the first one that does not parse. */
  function UntilBad<T>(parse: string -> Option<T>, parts: seq<string>): SetResult<T> {
    if parts == [] then SetResult([], true)
    else
      match parse(parts[0])
      case None => SetResult([], false)
      case Some(p) =>
        var rest := UntilBad(parse, parts[1..]);
        SetResult([p] + rest.entries, rest.ok)
  }

  function SetOf(value: string): SetResult<IDP> {
    UntilBad(ParseIDP, Split(value, ','))
  }

  /** The pieces read so far, and what the rest will add. */
  ghost predicate ReadSoFar<T>(parse: string -> Option<T>, parts: seq<string>, i: nat, entries: seq<T>)
    requires i <= |parts|
  {
    var rest := UntilBad(parse, parts[i..]);
    UntilBad(parse, parts) == SetResult(entries + rest.entries, rest.ok)
  }

  lemma ReadOneMore<T>(parse: string -> Option<T>, parts: seq<string>, i: nat, entries: seq<T>)
    requires i < |parts| && ReadSoFar(parse, parts, i, entries)
    ensures parse(parts[i]).None? ==> UntilBad(parse, parts) == SetResult(entries, false)
    ensures parse(parts[i]).Some? ==> ReadSoFar(parse, parts, i + 1, entries + [parse(parts[i]).value])
  {
    assert parts[i..][1..] == parts[i + 1..];
    if parse(parts[i]).None? {
      assert entries + [] == entries;
    } else {
      var (p, rest) := (parse(parts[i]).value, UntilBad(parse, parts[i + 1..]));
      assert entries + ([p] + rest.entries) == (entries + [p]) + rest.entries;
    }
  }

  lemma ReadAll<T>(parse: string -> Option<T>, parts: seq<string>, entries: seq<T>)
    ensures ReadSoFar(parse, parts, |parts|, entries) ==> UntilBad(parse, parts) == SetResult(entries, true)
    ensures ReadSoFar(parse, parts, 0, [])
  {
    assert parts[|parts|..] == [] && parts[0..] == parts;
    assert entries + [] == entries && [] + UntilBad(parse, parts).entries == UntilBad(parse, parts).entries;
  }

  /** The flag value: a slice Set clears and appends to, and String prints. */
  class SliceIDPVar {
    var entries: seq<IDP>

    constructor ()
      ensures entries == []
    {
      entries := [];
    }

    method Set(value: string) returns (ok: bool)
      modifies this
      ensures SetResult(entries, ok) == SetOf(value)
    {
      entries := [];
      var parts := Split(value, ',');
      ReadAll(ParseIDP, parts, []);
      var i := 0;
      while i < |parts|
        invariant i <= |parts| && ReadSoFar(ParseIDP, parts, i, entries)
      {
        ReadOneMore(ParseIDP, parts, i, entries);
        var part := ParseIDP(parts[i]);
        if part.None? {
          return false;
        }
        entries := entries + [part.value];
        i := i + 1;
      }
      ReadAll(ParseIDP, parts, entries);
      ok := true;
    }

    method String() returns (s: string)
      ensures s == StringOf(entries)
    {
      var idps: seq<string> := [];
      for i := 0 to |entries|
        invariant idps == PrintedAll(entries)[..i]
      {
        idps := idps + [PrintIDP(entries[i])];
      }
      assert PrintedAll(entries)[..|entries|] == PrintedAll(entries);
      s := Join(idps, ',');
    }
  }

  // --------------------------------------------------------------- round trip

  /** A field a list can carry: trimmed and without a comma. */
  predicate CleanField(s: string) {
    Trimmed(IsSpace, s) && ',' !in s
  }

  /** Only the last field, the secret, may hold a '#'. */
  predicate CleanPart(s: string) {
    CleanField(s) && '#' !in s
  }

  predicate Clean(p: IDP) {
    && CleanPart(p.name) && CleanPart(p.callbackURL) && CleanPart(p.loginRedirectURL)
    && CleanPart(p.registerRedirectURL) && CleanPart(p.clientID) && CleanField(p.clientSecret)
  }

  lemma PrintIsJoin(p: IDP)
    ensures PrintIDP(p) == Join(Fields(p), '#')
  {
    var f := Fields(p);
    assert Join(f[5..], '#') == p.clientSecret;
    assert f[4..][1..] == f[5..] && f[3..][1..] == f[4..] && f[2..][1..] == f[3..] && f[1..][1..] == f[2..];
    assert Join(f[4..], '#') == p.clientID + "#" + p.clientSecret;
    assert Join(f[3..], '#') == p.registerRedirectURL + "#" + Join(f[4..], '#');
    assert Join(f[2..], '#') == p.loginRedirectURL + "#" + Join(f[3..], '#');
    assert Join(f[1..], '#') == p.callbackURL + "#" + Join(f[2..], '#');
    assert Join(f, '#') == p.name + "#" + Join(f[1..], '#');
  }

  lemma CleanParses(p: IDP)
    requires Clean(p)
    ensures ParseIDP(PrintIDP(p)) == Some(p)
  {
    PrintIsJoin(p);
    SplitNJoin(Fields(p), '#', IDP_PARTS);
    CleanFromParts(p);
  }

  lemma CleanFromParts(p: IDP)
    requires Clean(p)
    ensures FromParts(Fields(p)) == p
  {
    TrimTrims(IsSpace, p.name);
    TrimTrims(IsSpace, p.callbackURL);
    TrimTrims(IsSpace, p.loginRedirectURL);
    TrimTrims(IsSpace, p.registerRedirectURL);
    TrimTrims(IsSpace, p.clientID);
    TrimTrims(IsSpace, p.clientSecret);
  }

  /** Whatever Set accepts is clean. */
  lemma ParsedIsClean(part: string, p: IDP)
    requires ',' !in part && ParseIDP(part) == Some(p)
    ensures Clean(p)
  {
    var parts := SplitN(part, '#', IDP_PARTS);
    SplitNPieces(part, '#', IDP_PARTS);
    assert forall i | 0 <= i < 6 :: parts[i] in parts;
  }

  lemma PrintedHasNoComma(p: IDP)
    requires Clean(p)
    ensures ',' !in PrintIDP(p)
  {
  }

  lemma {:induction false} EachParses<T>(parse: string -> Option<T>, parts: seq<string>, l: seq<T>)
    requires |parts| == |l| && forall i | 0 <= i < |l| :: parse(parts[i]) == Some(l[i])
    ensures UntilBad(parse, parts) == SetResult(l, true)
  {
    if l != [] {
      EachParses(parse, parts[1..], l[1..]);
      assert l == [l[0]] + l[1..];
    }
  }

  lemma CleanListParses(l: seq<IDP>)
    requires forall p | p in l :: Clean(p)
    ensures UntilBad(ParseIDP, PrintedAll(l)) == SetResult(l, true)
  {
    forall i | 0 <= i < |l| ensures ParseIDP(PrintedAll(l)[i]) == Some(l[i]) {
      CleanParses(l[i]);
    }
    EachParses(ParseIDP, PrintedAll(l), l);
  }

  lemma {:induction false} PrefixAt<T>(parse: string -> Option<T>, parts: seq<string>, i: nat)
    requires i < |UntilBad(parse, parts).entries|
    ensures i < |parts| && parse(parts[i]) == Some(UntilBad(parse, parts).entries[i])
  {
    if i > 0 {
      PrefixAt(parse, parts[1..], i - 1);
    }
  }

  lemma {:induction false} StopsIff<T>(parse: string -> Option<T>, parts: seq<string>)
    ensures var r := UntilBad(parse, parts);
      && |r.entries| <= |parts|
      && (r.ok <==> |r.entries| == |parts|)
      && (!r.ok ==> parse(parts[|r.entries|]).None?)
  {
    if parts != [] {
      StopsIff(parse, parts[1..]);
    }
  }

  lemma SetGivesClean(value: string)
    ensures forall e | e in SetOf(value).entries :: Clean(e)
    ensures SetOf(value).ok ==> SetOf(value).entries != []
  {
    var parts := Split(value, ',');
    SplitPieces(value, ',');
    StopsIff(ParseIDP, parts);
    forall e | e in SetOf(value).entries ensures Clean(e) {
      var i :| 0 <= i < |SetOf(value).entries| && SetOf(value).entries[i] == e;
      PrefixAt(ParseIDP, parts, i);
      assert parts[i] in parts;
      ParsedIsClean(parts[i], e);
    }
  }

  /** Set(String(l)) gives l back exactly for the non-empty lists of clean entries. */
  lemma RoundTripIff(l: seq<IDP>)
    ensures SetOf(StringOf(l)) == SetResult(l, true) <==> l != [] && forall p | p in l :: Clean(p)
  {
    if l != [] && forall p | p in l :: Clean(p) {
      forall s | s in PrintedAll(l) ensures ',' !in s {
        var i :| 0 <= i < |l| && PrintedAll(l)[i] == s;
        assert l[i] in l;
        PrintedHasNoComma(l[i]);
      }
      SplitJoin(PrintedAll(l), ',');
      CleanListParses(l);
    } else {
      SetGivesClean(StringOf(l));
    }
  }

  /** After a successful Set, printing and setting again changes nothing. */
  lemma SetNormalises(value: string)
    requires SetOf(value).ok
    ensures SetOf(StringOf(SetOf(value).entries)) == SetOf(value)
  {
    SetGivesClean(value);
    RoundTripIff(SetOf(value).entries);
  }

  /** Set succeeds exactly when every comma-separated piece holds at least five '#'. */
  lemma SetSucceedsIff(value: string)
    ensures SetOf(value).ok <==> forall p | p in Split(value, ',') :: Count(p, '#') >= 5
  {
    var parts := Split(value, ',');
    StopsIff(ParseIDP, parts);
    if SetOf(value).ok {
      forall p | p in parts ensures Count(p, '#') >= 5 {
        var i :| 0 <= i < |parts| && parts[i] == p;
        PrefixAt(ParseIDP, parts, i);
        SplitNFull(p, '#', IDP_PARTS);
      }
    } else {
      var bad := parts[|SetOf(value).entries|];
      SplitNFull(bad, '#', IDP_PARTS);
      assert bad in parts;
    }
  }

  /** A successful Set leaves one entry for each piece, in order. */
  lemma SetReadsEach(value: string)
    requires SetOf(value).ok
    ensures var (parts, entries) := (Split(value, ','), SetOf(value).entries);
      |entries| == |parts| && forall i | 0 <= i < |parts| :: ParseIDP(parts[i]) == Some(entries[i])
  {
    StopsIff(ParseIDP, Split(value, ','));
    forall i | 0 <= i < |SetOf(value).entries| ensures ParseIDP(Split(value, ',')[i]) == Some(SetOf(value).entries[i]) {
      PrefixAt(ParseIDP, Split(value, ','), i);
    }
  }

  /** A failed Set leaves the entries of the pieces before the first bad one. */
  lemma FailedSetKeepsPrefix(value: string)
    requires !SetOf(value).ok
    ensures var (parts, k) := (Split(value, ','), |SetOf(value).entries|);
      && k < |parts| && Count(parts[k], '#') < 5
      && forall i | 0 <= i < k :: ParseIDP(parts[i]) == Some(SetOf(value).entries[i])
  {
    var parts := Split(value, ',');
    StopsIff(ParseIDP, parts);
    SplitNFull(parts[|SetOf(value).entries|], '#', IDP_PARTS);
    forall i | 0 <= i < |SetOf(value).entries|
      ensures ParseIDP(parts[i]) == Some(SetOf(value).entries[i])
    {
      PrefixAt(ParseIDP, parts, i);
    }
  }

  // ----------------------------------------------- additional public key files

  /** The entries left after blanks are dropped, each passed through `trim`. */
  function Keep(trim: string -> string, raw: seq<string>): seq<string> {
    if raw == [] then []
    else (if trim(raw[0]) != "" then [trim(raw[0])] else []) + Keep(trim, raw[1..])
  }

  function KeyFiles(value: string): seq<string> {
    Keep(TrimSpace, Split(value, ','))
  }

  lemma {:induction false} KeepOneMore(trim: string -> string, raw: seq<string>, i: nat)
    requires i < |raw|
    ensures Keep(trim, raw[..i + 1]) == Keep(trim, raw[..i]) + if trim(raw[i]) != "" then [trim(raw[i])] else []
    decreases |raw|
  {
    if i == 0 {
      assert raw[..1][1..] == [] && raw[..0] == [];
    } else {
      assert raw[..i + 1][1..] == raw[1..][..i] && raw[..i][1..] == raw[1..][..i - 1];
      KeepOneMore(trim, raw[1..], i - 1);
    }
  }

  lemma KeepNext(trim: string -> string, raw: seq<string>, i: nat, path: string)
    requires i < |raw| && path == trim(raw[i])
    ensures Keep(trim, raw[..i + 1]) == if path != "" then Keep(trim, raw[..i]) + [path] else Keep(trim, raw[..i])
  {
    KeepOneMore(trim, raw, i);
  }

  method AdditionalPublicKeyFilesList(value: string) returns (paths: seq<string>)
    ensures paths == KeyFiles(value)
  {
    paths := Kept(TrimSpace, Split(value, ','));
  }

  method Kept(trim: string -> string, raw: seq<string>) returns (paths: seq<string>)
    ensures paths == Keep(trim, raw)
  {
    paths := [];
    for i := 0 to |raw|
      invariant paths == Keep(trim, raw[..i])
    {
      var path := trim(raw[i]);
      KeepNext(trim, raw, i, path);
      if path != "" {
        paths := paths + [path];
      }
    }
    assert raw[..|raw|] == raw;
  }

  lemma {:induction false} KeepSplits(trim: string -> string, a: seq<string>, b: seq<string>)
    ensures Keep(trim, a + b) == Keep(trim, a) + Keep(trim, b)
  {
    if a == [] {
      assert a + b == b;
    } else {
      assert (a + b)[0] == a[0] && (a + b)[1..] == a[1..] + b;
      KeepSplits(trim, a[1..], b);
    }
  }

  /** Piece by piece: one that is blank gives no path, any other gives itself trimmed, and a comma ends it. */
  lemma KeyFilesByPiece(piece: string, rest: string)
    requires ',' !in piece
    ensures KeyFiles(piece) == if TrimSpace(piece) == "" then [] else [TrimSpace(piece)]
    ensures KeyFiles(piece + "," + rest) == KeyFiles(piece) + KeyFiles(rest)
  {
    SplitNone(piece, ',');
    Strings.SplitAt(piece, ',', rest);
    KeepSplits(TrimSpace, [piece], Split(rest, ','));
    KeepOneMore(TrimSpace, [piece], 0);
    assert [piece][..1] == [piece] && [piece][..0] == [];
  }

  ghost predicate IsPath(p: string) {
    p != "" && Trimmed(IsSpace, p) && ',' !in p
  }

  lemma {:induction false} KeptFrom(trim: string -> string, raw: seq<string>, p: string)
    requires p in Keep(trim, raw)
    ensures p != "" && exists r :: r in raw && p == trim(r)
  {
    if p in Keep(trim, raw[1..]) {
      KeptFrom(trim, raw[1..], p);
      var r :| r in raw[1..] && p == trim(r);
      assert r in raw;
    } else {
      assert raw[0] in raw && p == trim(raw[0]);
    }
  }

  lemma {:induction false} KeepsAll(trim: string -> string, raw: seq<string>)
    requires forall p | p in raw :: trim(p) == p != ""
    ensures Keep(trim, raw) == raw
  {
    if raw != [] {
      assert raw[0] in raw;
      KeepsAll(trim, raw[1..]);
      assert raw == [raw[0]] + raw[1..];
    }
  }

  lemma KeptArePaths(raw: seq<string>)
    requires forall p | p in raw :: ',' !in p
    ensures forall p | p in Keep(TrimSpace, raw) :: IsPath(p)
  {
    forall p | p in Keep(TrimSpace, raw) ensures IsPath(p) {
      KeptFrom(TrimSpace, raw, p);
    }
  }

  /** A list of paths survives being joined by commas exactly when each is one, trimmed and comma-free. */
  lemma KeyFilesRoundTripIff(paths: seq<string>)
    ensures KeyFiles(Join(paths, ',')) == paths <==> forall p | p in paths :: IsPath(p)
  {
    var value := Join(paths, ',');
    SplitPieces(value, ',');
    KeptArePaths(Split(value, ','));
    if forall p | p in paths :: IsPath(p) {
      if paths == [] {
        assert Split("", ',') == [""];
        KeepOneMore(TrimSpace, [""], 0);
        assert [""][..1] == [""] && TrimSpace("") == "";
      } else {
        SplitJoin(paths, ',');
        forall p | p in paths ensures TrimSpace(p) == p {
          TrimTrims(IsSpace, p);
        }
        KeepsAll(TrimSpace, paths);
      }
    }
  }
}
