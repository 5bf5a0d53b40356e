/**
 * The token denylist: one table of revoked tokens, written by logouts, by
 * refreshes that rotate a token and by single-use tokens, read with
 * `expires_at > NOW()` and by a walk along rotations that reads every row, and
 * swept of expired rows by every replica whenever it likes.
 */
module Denylist {
  import opened Wrappers

  /** A token id; zero stands for the nil UUID, which no statement accepts. */
  type Jti = nat

  const NIL: Jti := 0

  /** `replacedBy` is the successor a rotation recorded; a token revoked outright has none. */
  datatype Row = Row(access: bool, expiresAt: nat, revokedAt: nat, replacedBy: Option<Jti>)

  type Rows = map<Jti, Row>

  datatype Db = Db(now: nat, rows: Rows)

  /** The statements the service sends, each atomic, and the passing of time. */
  datatype Event =
    | Tick(elapsed: nat)
    | Revoke(jti: Jti, access: bool, expiresAt: nat)
    | Rotate(jti: Jti, next: Jti, expiresAt: nat)
    | Consume(jti: Jti, access: bool, expiresAt: nat)
    | RevokeChain(jti: Jti, expiresAt: nat)
    | Get(jti: Jti)
    | SelectUnexpired
    | Sweep

  datatype Answer =
    | Done
    | InvalidInput
    | FirstUse(first: bool)
    | Tip(tip: Option<Jti>)
    | Record(row: Option<Row>)
    | Jtis(jtis: set<Jti>)
    | Removed(count: nat)

  // ---------------------------------------------------------------- the walk

  /** The rows a walk along successors goes through, up to a missing one, an outright revocation or a cycle. */
  function Links(rows: Rows, seen: set<Jti>, j: Jti): (r: seq<Jti>)
    ensures forall k | k in r :: k in rows
    decreases rows.Keys - seen
  {
    if j !in rows || j in seen then []
    else
      match rows[j].replacedBy
      case None => [j]
      case Some(k) => [j] + Links(rows, seen + {j}, k)
  }

  /** Where it ends: at a token without a row, or at none. */
  function Walk(rows: Rows, seen: set<Jti>, j: Jti): (tip: Option<Jti>)
    ensures tip.Some? ==> tip.value !in rows
    decreases rows.Keys - seen
  {
    if j !in rows then Some(j)
    else if j in seen then None
    else
      match rows[j].replacedBy
      case None => None
      case Some(k) => Walk(rows, seen + {j}, k)
  }

  /** The one token of a rotation chain that nobody has spent. */
  function TipOf(rows: Rows, j: Jti): Option<Jti> {
    if j in rows then Walk(rows, {}, j) else None
  }

  lemma {:induction false} WalkIsQueried(rows: Rows, seen: set<Jti>, j: Jti, tip: Jti)
    requires j in rows
    ensures Walk(rows, seen, j) == Some(tip)
      <==> tip !in rows && exists c :: c in Links(rows, seen, j) && c in rows && rows[c].replacedBy == Some(tip)
    decreases rows.Keys - seen
  {
    if j !in seen && rows[j].replacedBy.Some? {
      var k := rows[j].replacedBy.value;
      if k in rows {
        WalkIsQueried(rows, seen + {j}, k, tip);
        assert forall c :: c in Links(rows, seen, j) <==> c == j || c in Links(rows, seen + {j}, k);
      } else {
        assert Links(rows, seen + {j}, k) == [] && Links(rows, seen, j) == [j] + [];
      }
    }
  }

  /** The tip is what the statement's last query selects: the successor, without a row, of some row of the walk. */
  lemma TipIsQueried(rows: Rows, j: Jti, tip: Jti)
    ensures TipOf(rows, j) == Some(tip)
      <==> tip !in rows && exists c :: c in Links(rows, {}, j) && c in rows && rows[c].replacedBy == Some(tip)
  {
    if j in rows {
      WalkIsQueried(rows, {}, j, tip);
    }
  }

  // ------------------------------------------------------------ the statements

  function Unexpired(rows: Rows, now: nat): Rows {
    map j | j in rows && rows[j].expiresAt > now :: rows[j]
  }

  /** INSERT ... ON CONFLICT (jti) DO NOTHING. */
  function Insert(rows: Rows, jti: Jti, row: Row): Rows {
    if jti in rows then rows else rows[jti := row]
  }

  /** Whether the arguments are refused before any statement is sent. */
  predicate Refused(e: Event) {
    match e
    case Revoke(j, _, _) => j == NIL
    case Rotate(j, k, _) => j == NIL || k == NIL
    case Consume(j, _, _) => j == NIL
    case RevokeChain(j, _) => j == NIL
    case Get(j) => j == NIL
    case _ => false
  }

  /** The token a statement inserts a row for, where it has none. */
  function Target(rows: Rows, e: Event): Option<Jti> {
    if Refused(e) then None
    else
      match e
      case Revoke(j, _, _) => Some(j)
      case Rotate(j, _, _) => Some(j)
      case Consume(j, _, _) => Some(j)
      case RevokeChain(j, _) => TipOf(rows, j)
      case _ => None
  }

  /** That row. */
  function RowOf(e: Event, now: nat): Row {
    match e
    case Revoke(_, access, expiresAt) => Row(access, expiresAt, now, None)
    case Rotate(_, k, expiresAt) => Row(false, expiresAt, now, Some(k))
    case Consume(_, access, expiresAt) => Row(access, expiresAt, now, None)
    case RevokeChain(_, expiresAt) => Row(false, expiresAt, now, None)
    case _ => Row(false, 0, now, None)
  }

  function After(db: Db, e: Event): Db {
    match e
    case Tick(d) => db.(now := db.now + d)
    case Sweep => db.(rows := Unexpired(db.rows, db.now))
    case _ =>
      match Target(db.rows, e)
      case None => db
      case Some(j) => db.(rows := Insert(db.rows, j, RowOf(e, db.now)))
  }

  function AccessJtis(rows: Rows): set<Jti> {
    set j | j in rows && rows[j].access
  }

  function AnswerTo(db: Db, e: Event): Answer {
    if Refused(e) then InvalidInput
    else
      match e
      case Tick(_) => Done
      case Revoke(_, _, _) => Done
      case Rotate(_, _, _) => Done
      case Consume(j, _, _) => FirstUse(j !in db.rows)
      case RevokeChain(j, _) => Tip(TipOf(db.rows, j))
      case Get(j) =>
        var live := Unexpired(db.rows, db.now);
        Record(if j in live then Some(live[j]) else None)
      case SelectUnexpired => Jtis(AccessJtis(Unexpired(db.rows, db.now)))
      case Sweep => Removed(|Expired(db.rows, db.now)|)
  }

  function Expired(rows: Rows, now: nat): set<Jti> {
    set j | j in rows && rows[j].expiresAt <= now
  }

  function Exec(db: Db, run: seq<Event>): Db
    decreases |run|
  {
    if run == [] then db else Exec(After(db, run[0]), run[1..])
  }

  // ------------------------------------------------- when a sweep can be seen

  /** What a caller sees of one statement, and every row a lookup could return after it. */
  datatype Sight = Sight(answer: Answer, live: Rows)

  function Observe(db: Db, run: seq<Event>): seq<Sight>
    decreases |run|
  {
    if run == [] then []
    else
      var next := After(db, run[0]);
      var rest := Observe(next, run[1..]);
      if run[0].Sweep? then rest
      else [Sight(AnswerTo(db, run[0]), Unexpired(next.rows, next.now))] + rest
  }

  /** The same run with no sweep in it. */
  function Erase(run: seq<Event>): (r: seq<Event>)
    ensures |r| <= |run|
  {
    if run == [] then []
    else if run[0].Sweep? then Erase(run[1..])
    else [run[0]] + Erase(run[1..])
  }

  ghost predicate SweepFree(run: seq<Event>) {
    forall i | 0 <= i < |run| :: !run[i].Sweep?
  }

  /**
   * Sweeps placed anywhere in the run, any number of them, on any replica,
   * change no answer and no row a later lookup could return.
   */
  ghost predicate SweepsUnseen(db: Db, run: seq<Event>) {
    forall swept | Erase(swept) == run :: Observe(db, swept) == Observe(db, run)
  }

  /**
   * A table never swept, and for each moment of the past what it would hold by
   * now had it been swept then and not since.
   */
  datatype Ledger = Ledger(db: Db, left: seq<Rows>)

  function Kept(l: Ledger): seq<Rows> {
    l.left + [Unexpired(l.db.rows, l.db.now)]
  }

  function Next(l: Ledger, e: Event): (n: Ledger)
    ensures |n.left| == |l.left| + 1
    ensures forall i | 0 <= i < |n.left| :: n.left[i] == After(Db(l.db.now, Kept(l)[i]), e).rows
  {
    Ledger(
      After(l.db, e),
      seq(|l.left| + 1, i requires 0 <= i < |l.left| + 1 => After(Db(l.db.now, Kept(l)[i]), e).rows))
  }

  predicate Live(db: Db, j: Jti) {
    j in db.rows && db.rows[j].expiresAt > db.now
  }

  predicate Dead(db: Db, j: Jti) {
    j in db.rows && db.rows[j].expiresAt <= db.now
  }

  /** The walk from j meets no expired row. */
  predicate WalkLive(db: Db, j: Jti) {
    forall k | k in Links(db.rows, {}, j) :: Live(db, k)
  }

  /**
   * The walk is blind to sweeps when it meets no expired row.  If it does, it
   * must start at one and come to nothing, and have come to nothing in every
   * table a sweep can have left; LiveChainIff and FirstToExpireIff tell the two
   * cases from the run.
   */
  predicate ChainSafe(l: Ledger, j: Jti) {
    WalkLive(l.db, j)
    || (Dead(l.db, j) && TipOf(l.db.rows, j).None? && forall t | t in l.left :: TipOf(t, j).None?)
  }

  /**
   * A write that meets an expired row must be expired itself, a single-use token
   * must not be spent at all, and a chain must not be walked into one.
   */
  predicate StepSafe(l: Ledger, e: Event) {
    Refused(e) ||
    match e
    case Revoke(j, _, expiresAt) => Dead(l.db, j) ==> expiresAt <= l.db.now
    case Rotate(j, _, expiresAt) => Dead(l.db, j) ==> expiresAt <= l.db.now
    case Consume(j, _, _) => !Dead(l.db, j)
    case RevokeChain(j, _) => ChainSafe(l, j)
    case _ => true
  }

  predicate SweepSafe(l: Ledger, run: seq<Event>)
    decreases |run|
  {
    run == [] || (StepSafe(l, run[0]) && SweepSafe(Next(l, run[0]), run[1..]))
  }

  /** A run from a table no sweep of which is remembered. */
  predicate SafeFrom(db: Db, run: seq<Event>) {
    SweepSafe(Ledger(db, []), run)
  }

  /** `t` is `rows` with some expired rows gone, or gone and replaced by expired ones. */
  ghost predicate Swept(rows: Rows, t: Rows, now: nat) {
    t.Keys <= rows.Keys && Unexpired(t, now) == Unexpired(rows, now)
  }

  ghost predicate LedgerOk(l: Ledger) {
    forall t | t in l.left :: Swept(l.db.rows, t, l.db.now)
  }

  lemma LiveIn(rows: Rows, now: nat, j: Jti)
    ensures j in Unexpired(rows, now) <==> Live(Db(now, rows), j)
    ensures j in Unexpired(rows, now) ==> Unexpired(rows, now)[j] == rows[j]
  {
  }

  lemma SweptAt(rows: Rows, t: Rows, now: nat, j: Jti)
    requires Swept(rows, t, now)
    ensures Live(Db(now, rows), j) <==> Live(Db(now, t), j)
    ensures Live(Db(now, rows), j) ==> rows[j] == t[j]
    ensures j in t ==> j in rows
  {
    LiveIn(rows, now, j);
    LiveIn(t, now, j);
  }

  lemma SweptBy(rows: Rows, t: Rows, now: nat)
    requires forall j | j in t :: j in rows
    requires forall j :: Live(Db(now, t), j) ==> Live(Db(now, rows), j)
    requires forall j :: Live(Db(now, rows), j) ==> Live(Db(now, t), j) && rows[j] == t[j]
    ensures Swept(rows, t, now)
  {
    var (x, y) := (Unexpired(rows, now), Unexpired(t, now));
    forall j ensures (j in x <==> j in y) && (j in x ==> x[j] == y[j]) {
      LiveIn(rows, now, j);
      LiveIn(t, now, j);
    }
    assert x == y;
  }

  lemma SweepSwept(rows: Rows, t: Rows, now: nat)
    requires Swept(rows, t, now)
    ensures Unexpired(t, now) == Unexpired(rows, now) && Swept(rows, Unexpired(rows, now), now)
  {
    forall j ensures j in Unexpired(Unexpired(rows, now), now) <==> j in Unexpired(rows, now) {
      LiveIn(rows, now, j);
    }
    assert Unexpired(Unexpired(rows, now), now) == Unexpired(rows, now);
  }

  lemma TickSwept(rows: Rows, t: Rows, now: nat, d: nat)
    requires Swept(rows, t, now)
    ensures Swept(rows, t, now + d)
  {
    forall j
      ensures (j in t ==> j in rows)
        && (Live(Db(now + d, rows), j) <==> Live(Db(now + d, t), j))
        && (Live(Db(now + d, rows), j) ==> rows[j] == t[j])
    {
      SweptAt(rows, t, now, j);
    }
    SweptBy(rows, t, now + d);
  }

  lemma InsertSwept(rows: Rows, t: Rows, now: nat, j: Jti, r: Row)
    requires Swept(rows, t, now)
    requires Dead(Db(now, rows), j) ==> r.expiresAt <= now
    ensures Swept(Insert(rows, j, r), Insert(t, j, r), now)
  {
    var (x, y) := (Insert(rows, j, r), Insert(t, j, r));
    SweptAt(rows, t, now, j);
    forall k
      ensures (k in y ==> k in x)
        && (Live(Db(now, x), k) <==> Live(Db(now, y), k))
        && (Live(Db(now, x), k) ==> x[k] == y[k])
    {
      SweptAt(rows, t, now, k);
    }
    SweptBy(x, y, now);
  }

  /** A walk over live rows is the same whatever was swept. */
  lemma {:induction false} LiveWalkSame(rows: Rows, t: Rows, now: nat, seen: set<Jti>, j: Jti)
    requires Swept(rows, t, now) && forall k | k in seen :: Live(Db(now, rows), k)
    requires forall k | k in Links(rows, seen, j) :: Live(Db(now, rows), k)
    ensures Walk(rows, seen, j) == Walk(t, seen, j)
    decreases rows.Keys - seen
  {
    SweptAt(rows, t, now, j);
    if j in rows && j !in seen {
      assert Links(rows, seen, j)[0] == j;
      if rows[j].replacedBy.Some? {
        var k := rows[j].replacedBy.value;
        assert Links(rows, seen, j)[1..] == Links(rows, seen + {j}, k);
        LiveWalkSame(rows, t, now, seen + {j}, k);
      }
    }
  }

  /** One that runs into an expired row ends there once the row is swept. */
  lemma {:induction false} DeadWalkEnds(rows: Rows, now: nat, seen: set<Jti>, j: Jti)
    requires forall k | k in seen :: Live(Db(now, rows), k)
    requires exists k :: k in Links(rows, seen, j) && !Live(Db(now, rows), k)
    ensures Walk(Unexpired(rows, now), seen, j).Some? && Walk(Unexpired(rows, now), seen, j).value in rows
    decreases rows.Keys - seen
  {
    LiveIn(rows, now, j);
    if Live(Db(now, rows), j) {
      var k := rows[j].replacedBy.value;
      assert Links(rows, seen, j) == [j] + Links(rows, seen + {j}, k);
      DeadWalkEnds(rows, now, seen + {j}, k);
    }
  }

  lemma KeptIs(l: Ledger, t: Rows)
    ensures t in Kept(l) <==> t in l.left || t == Unexpired(l.db.rows, l.db.now)
    ensures t in Kept(l) ==> forall e :: After(Db(l.db.now, t), e).rows in Next(l, e).left
  {
    var live := Unexpired(l.db.rows, l.db.now);
    assert Kept(l)[|l.left|] == live;
    assert forall i | 0 <= i < |l.left| :: Kept(l)[i] == l.left[i];
    if t in Kept(l) {
      var i :| 0 <= i < |Kept(l)| && Kept(l)[i] == t;
      forall e ensures After(Db(l.db.now, t), e).rows in Next(l, e).left {
        assert Next(l, e).left[i] == After(Db(l.db.now, t), e).rows;
      }
    }
  }

  lemma ChainSame(l: Ledger, t: Rows, j: Jti)
    requires ChainSafe(l, j) && Swept(l.db.rows, t, l.db.now) && (t == l.db.rows || t in Kept(l))
    ensures TipOf(t, j) == TipOf(l.db.rows, j)
  {
    var (rows, now) := (l.db.rows, l.db.now);
    SweptAt(rows, t, now, j);
    LiveIn(rows, now, j);
    if j in rows && WalkLive(l.db, j) {
      assert Links(rows, {}, j)[0] == j;
      LiveWalkSame(rows, t, now, {}, j);
    }
  }

  /** The condition on a walk says no more than it must: that every sweep there can have been leaves its tip alone. */
  lemma ChainSafeIff(l: Ledger, j: Jti)
    requires LedgerOk(l)
    ensures ChainSafe(l, j) <==> forall t | t in Kept(l) :: TipOf(t, j) == TipOf(l.db.rows, j)
  {
    var (rows, now) := (l.db.rows, l.db.now);
    SweepSwept(rows, rows, now);
    if ChainSafe(l, j) {
      forall t | t in Kept(l) ensures TipOf(t, j) == TipOf(rows, j) {
        KeptIs(l, t);
        ChainSame(l, t, j);
      }
    } else {
      var t := UnsafeWalkShows(l, j);
    }
  }

  lemma UnsafeWalkShows(l: Ledger, j: Jti) returns (t: Rows)
    requires !ChainSafe(l, j)
    ensures t in Kept(l) && TipOf(t, j) != TipOf(l.db.rows, j)
  {
    var (rows, now) := (l.db.rows, l.db.now);
    t := Unexpired(rows, now);
    KeptIs(l, t);
    LiveIn(rows, now, j);
    if Live(l.db, j) {
      DeadWalkEnds(rows, now, {}, j);
    } else if TipOf(rows, j).None? {
      t :| t in l.left && TipOf(t, j).Some?;
      KeptIs(l, t);
    }
  }

  /** A safe step answers alike on a table and on any of its swept versions, and keeps them so. */
  lemma SweptStep(l: Ledger, t: Rows, e: Event)
    requires Swept(l.db.rows, t, l.db.now) && (t == l.db.rows || t in Kept(l))
    requires StepSafe(l, e) && !e.Sweep?
    ensures AnswerTo(l.db, e) == AnswerTo(Db(l.db.now, t), e)
    ensures Swept(After(l.db, e).rows, After(Db(l.db.now, t), e).rows, After(l.db, e).now)
  {
    var (rows, now) := (l.db.rows, l.db.now);
    if e.Tick? {
      TickSwept(rows, t, now, e.elapsed);
    } else if !Refused(e) {
      if e.RevokeChain? {
        ChainSame(l, t, e.jti);
      } else if e.Consume? {
        SweptAt(rows, t, now, e.jti);
      }
      var target := Target(rows, e);
      if target.Some? {
        assert Dead(l.db, target.value) ==> RowOf(e, now).expiresAt <= now;
        InsertSwept(rows, t, now, target.value, RowOf(e, now));
      }
    }
  }

  lemma NextIsOk(l: Ledger, e: Event)
    requires LedgerOk(l) && StepSafe(l, e) && !e.Sweep?
    ensures LedgerOk(Next(l, e))
  {
    var n := Next(l, e);
    forall t | t in n.left ensures Swept(n.db.rows, t, n.db.now) {
      var i :| 0 <= i < |n.left| && n.left[i] == t;
      SweepSwept(l.db.rows, l.db.rows, l.db.now);
      SweptStep(l, Kept(l)[i], e);
    }
  }

  /** A table and a swept version of it after the same safe step. */
  lemma StepTogether(l: Ledger, t: Rows, e: Event)
    requires LedgerOk(l) && StepSafe(l, e) && !e.Sweep? && (t == l.db.rows || t in Kept(l))
    ensures AnswerTo(l.db, e) == AnswerTo(Db(l.db.now, t), e)
    ensures var (n, u) := (Next(l, e), After(Db(l.db.now, t), e));
      && LedgerOk(n) && (u.rows == n.db.rows || u.rows in Kept(n)) && u.now == n.db.now
      && Unexpired(u.rows, u.now) == Unexpired(n.db.rows, n.db.now)
  {
    KeptIs(l, t);
    SweepSwept(l.db.rows, l.db.rows, l.db.now);
    SweptStep(l, t, e);
    NextIsOk(l, e);
    KeptIs(Next(l, e), After(Db(l.db.now, t), e).rows);
  }

  lemma Observed(db: Db, e: Event, run: seq<Event>)
    ensures Observe(db, [e] + run) ==
      (if e.Sweep? then [] else [Sight(AnswerTo(db, e), Unexpired(After(db, e).rows, After(db, e).now))])
      + Observe(After(db, e), run)
  {
    assert ([e] + run)[1..] == run;
  }

  /** Safe steps: a swept run and the unswept one never part. */
  lemma {:induction false} Simulation(l: Ledger, t: Rows, swept: seq<Event>)
    requires LedgerOk(l) && SweepSafe(l, Erase(swept)) && (t == l.db.rows || t in Kept(l))
    ensures Observe(l.db, Erase(swept)) == Observe(Db(l.db.now, t), swept)
    decreases |swept|
  {
    if swept != [] {
      var (e, rest) := (swept[0], swept[1..]);
      assert swept == [e] + rest;
      Observed(Db(l.db.now, t), e, rest);
      if e.Sweep? {
        SweepTogether(l, t);
        Simulation(l, Unexpired(t, l.db.now), rest);
      } else {
        assert Erase(swept) == [e] + Erase(rest) && Erase(swept)[1..] == Erase(rest);
        Observed(l.db, e, Erase(rest));
        StepTogether(l, t, e);
        Simulation(Next(l, e), After(Db(l.db.now, t), e).rows, rest);
      }
    }
  }

  lemma SweepTogether(l: Ledger, t: Rows)
    requires LedgerOk(l) && (t == l.db.rows || t in Kept(l))
    ensures Unexpired(t, l.db.now) in Kept(l)
  {
    KeptIs(l, t);
    SweepSwept(l.db.rows, l.db.rows, l.db.now);
    SweepSwept(l.db.rows, t, l.db.now);
    KeptIs(l, Unexpired(t, l.db.now));
  }

  lemma {:induction false} EraseFree(run: seq<Event>)
    requires SweepFree(run)
    ensures Erase(run) == run
  {
    if run != [] {
      assert !run[0].Sweep?;
      EraseFree(run[1..]);
    }
  }

  /** An unsafe step shows at once, on the table swept now or on one swept before. */
  lemma UnsafeStepShows(l: Ledger, e: Event) returns (t: Rows)
    requires !StepSafe(l, e) && !e.Sweep?
    ensures t in Kept(l)
    ensures AnswerTo(Db(l.db.now, t), e) != AnswerTo(l.db, e)
      || Unexpired(After(Db(l.db.now, t), e).rows, l.db.now) != Unexpired(After(l.db, e).rows, l.db.now)
  {
    var (rows, now) := (l.db.rows, l.db.now);
    if e.RevokeChain? {
      t := UnsafeWalkShows(l, e.jti);
    } else {
      t := Unexpired(rows, now);
      KeptIs(l, t);
      LiveIn(rows, now, e.jti);
      if e.Revoke? || e.Rotate? {
        assert e.jti in Unexpired(After(Db(now, t), e).rows, now);
        assert e.jti !in Unexpired(After(l.db, e).rows, now);
      }
    }
  }

  /** Two runs with the same first statement part when that shows, or their rest does. */
  lemma Parts(a: Db, b: Db, e: Event, run: seq<Event>, swept: seq<Event>)
    requires a.now == b.now && !e.Sweep?
    requires AnswerTo(b, e) != AnswerTo(a, e)
      || Unexpired(After(b, e).rows, After(b, e).now) != Unexpired(After(a, e).rows, After(a, e).now)
      || Observe(After(b, e), swept) != Observe(After(a, e), run)
    ensures Observe(b, [e] + swept) != Observe(a, [e] + run)
  {
    Observed(a, e, run);
    Observed(b, e, swept);
    var (x, y) := (Observe(b, [e] + swept), Observe(a, [e] + run));
    assert x[1..] == Observe(After(b, e), swept) && y[1..] == Observe(After(a, e), run);
    assert x[0] == Sight(AnswerTo(b, e), Unexpired(After(b, e).rows, After(b, e).now));
  }

  /** What shows on a table swept just now shows with a sweep put in front. */
  lemma SweepFirst(l: Ledger, t: Rows, run: seq<Event>, swept: seq<Event>) returns (u: Rows, more: seq<Event>)
    requires (t == l.db.rows || t in Kept(l)) && Erase(swept) == run
    requires Observe(Db(l.db.now, t), swept) != Observe(l.db, run)
    ensures u in l.left || u == l.db.rows
    ensures Erase(more) == run && Observe(Db(l.db.now, u), more) != Observe(l.db, run)
  {
    KeptIs(l, t);
    u, more := t, swept;
    if t !in l.left && t != l.db.rows {
      u, more := l.db.rows, [Sweep] + swept;
      assert more[1..] == swept;
      Observed(l.db, Sweep, swept);
    }
  }

  /** The first unsafe step is where some placement of sweeps shows. */
  lemma {:induction false} ASweepShows(l: Ledger, run: seq<Event>) returns (t: Rows, swept: seq<Event>)
    requires SweepFree(run) && !SweepSafe(l, run)
    ensures t in l.left || t == l.db.rows
    ensures Erase(swept) == run && Observe(Db(l.db.now, t), swept) != Observe(l.db, run)
    decreases |run|
  {
    var (e, rest) := (run[0], run[1..]);
    assert !e.Sweep? && run == [e] + rest && SweepFree(rest);
    var u, tail;
    if !StepSafe(l, e) {
      u := UnsafeStepShows(l, e);
      tail := rest;
      EraseFree(rest);
    } else {
      var v;
      v, tail := ASweepShows(Next(l, e), rest);
      u := Before(l, e, v);
    }
    Parts(l.db, Db(l.db.now, u), e, rest, tail);
    assert Erase([e] + tail) == run by { assert ([e] + tail)[1..] == tail; }
    t, swept := SweepFirst(l, u, run, [e] + tail);
  }

  lemma Before(l: Ledger, e: Event, v: Rows) returns (u: Rows)
    requires v in Next(l, e).left || v == Next(l, e).db.rows
    ensures (u == l.db.rows || u in Kept(l)) && After(Db(l.db.now, u), e).rows == v
  {
    u := l.db.rows;
    if v != Next(l, e).db.rows {
      var i :| 0 <= i < |Next(l, e).left| && Next(l, e).left[i] == v;
      u := Kept(l)[i];
    }
  }

  /** Sweeps are unobservable exactly when every step of the run is safe. */
  lemma SweepsUnseenIff(db: Db, run: seq<Event>)
    requires SweepFree(run)
    ensures SweepsUnseen(db, run) <==> SafeFrom(db, run)
  {
    var l := Ledger(db, []);
    if SafeFrom(db, run) {
      forall swept | Erase(swept) == run ensures Observe(db, swept) == Observe(db, run) {
        Simulation(l, db.rows, swept);
      }
    } else {
      var t, swept := ASweepShows(l, run);
    }
  }

  // ------------------------------------- rows that carry the token's own expiry

  /** The statement names the token's own expiry, which a rotation carries over to the successor. */
  predicate OwnStatement(own: Jti -> nat, e: Event) {
    match e
    case Revoke(j, _, expiresAt) => expiresAt == own(j)
    case Rotate(j, k, expiresAt) => expiresAt == own(j) == own(k)
    case Consume(j, _, expiresAt) => expiresAt == own(j)
    case RevokeChain(j, expiresAt) => expiresAt == own(j)
    case _ => true
  }

  /** A token is spent, and a chain revoked, while the token presented is unexpired. */
  predicate InTime(own: Jti -> nat, now: nat, e: Event) {
    e.Consume? || e.RevokeChain? ==> now < own(e.jti)
  }

  predicate OwnExpiry(own: Jti -> nat, run: seq<Event>) {
    forall i | 0 <= i < |run| :: OwnStatement(own, run[i])
  }

  predicate AllInTime(own: Jti -> nat, now: nat, run: seq<Event>)
    decreases |run|
  {
    run != [] ==>
      && InTime(own, now, run[0])
      && AllInTime(own, if run[0].Tick? then now + run[0].elapsed else now, run[1..])
  }

  ghost predicate RowsOwn(own: Jti -> nat, rows: Rows) {
    forall j | j in rows ::
      rows[j].expiresAt == own(j) && (rows[j].replacedBy.Some? ==> own(rows[j].replacedBy.value) == own(j))
  }

  /** A whole chain expires when its first token does. */
  lemma {:induction false} ChainSharesExpiry(own: Jti -> nat, rows: Rows, seen: set<Jti>, j: Jti)
    requires RowsOwn(own, rows)
    ensures forall k | k in Links(rows, seen, j) :: own(k) == own(j)
    ensures Walk(rows, seen, j).Some? ==> own(Walk(rows, seen, j).value) == own(j)
    decreases rows.Keys - seen
  {
    if j in rows && j !in seen && rows[j].replacedBy.Some? {
      ChainSharesExpiry(own, rows, seen + {j}, rows[j].replacedBy.value);
    }
  }

  lemma OwnStep(own: Jti -> nat, db: Db, e: Event)
    requires RowsOwn(own, db.rows) && OwnStatement(own, e)
    ensures RowsOwn(own, After(db, e).rows)
  {
    if e.RevokeChain? {
      ChainSharesExpiry(own, db.rows, {}, e.jti);
    }
  }

  lemma OwnStepIsSafe(own: Jti -> nat, l: Ledger, e: Event)
    requires RowsOwn(own, l.db.rows) && OwnStatement(own, e) && InTime(own, l.db.now, e)
    ensures StepSafe(l, e)
  {
    if e.RevokeChain? {
      ChainSharesExpiry(own, l.db.rows, {}, e.jti);
    }
  }

  lemma {:induction false} OwnExpiryIsSweepSafe(own: Jti -> nat, l: Ledger, run: seq<Event>)
    requires RowsOwn(own, l.db.rows) && OwnExpiry(own, run) && AllInTime(own, l.db.now, run)
    ensures SweepSafe(l, run)
    decreases |run|
  {
    if run != [] {
      OwnStepIsSafe(own, l, run[0]);
      OwnStep(own, l.db, run[0]);
      OwnExpiryIsSweepSafe(own, Next(l, run[0]), run[1..]);
    }
  }

  /**
   * With each token's own expiry on its row, carried over by rotations, and no
   * token spent or chain revoked once it has expired, sweeping anywhere changes
   * no answer, ever.
   */
  lemma OwnExpirySweepsUnseen(own: Jti -> nat, db: Db, run: seq<Event>)
    requires SweepFree(run) && RowsOwn(own, db.rows) && OwnExpiry(own, run) && AllInTime(own, db.now, run)
    ensures SweepsUnseen(db, run)
  {
    OwnExpiryIsSweepSafe(own, Ledger(db, []), run);
    SweepsUnseenIff(db, run);
  }

  /** A token is accepted while it is unexpired and the table has no live row for it. */
  predicate Accepts(own: Jti -> nat, db: Db, j: Jti) {
    db.now < own(j) && j !in Unexpired(db.rows, db.now)
  }

  /** Sweeps included, a token once refused is never accepted again. */
  lemma {:induction false} NeverAcceptedAgain(own: Jti -> nat, db: Db, j: Jti, run: seq<Event>)
    requires !Accepts(own, db, j) && RowsOwn(own, db.rows) && OwnExpiry(own, run)
    ensures !Accepts(own, Exec(db, run), j)
    decreases |run|
  {
    if run != [] {
      var next := After(db, run[0]);
      LiveIn(db.rows, db.now, j);
      LiveIn(next.rows, next.now, j);
      OwnStep(own, db, run[0]);
      NeverAcceptedAgain(own, next, j, run[1..]);
    }
  }

  /** Whatever put a row in for a token, from then on the token is refused: revoked, rotated or spent. */
  lemma RevokedIsNeverAccepted(own: Jti -> nat, db: Db, e: Event, run: seq<Event>)
    requires RowsOwn(own, db.rows) && OwnStatement(own, e) && OwnExpiry(own, run)
    requires (e.Revoke? || e.Rotate? || e.Consume?) && !Refused(e)
    ensures !Accepts(own, Exec(After(db, e), run), e.jti)
  {
    var next := After(db, e);
    OwnStep(own, db, e);
    LiveIn(next.rows, next.now, e.jti);
    NeverAcceptedAgain(own, next, e.jti, run);
  }

  /**
   * Revoking a chain ends it for good: no token on the walk from the one
   * presented, and not the tip that was still usable, is ever accepted again.
   */
  lemma RevokedChainIsOver(own: Jti -> nat, db: Db, j: Jti, run: seq<Event>, k: Jti)
    requires j != NIL && RowsOwn(own, db.rows) && OwnExpiry(own, run)
    requires k in Links(db.rows, {}, j) || TipOf(db.rows, j) == Some(k)
    ensures !Accepts(own, Exec(After(db, RevokeChain(j, own(j))), run), k)
    ensures TipOf(After(db, RevokeChain(j, own(j))).rows, j).None?
  {
    var e := RevokeChain(j, own(j));
    var next := After(db, e);
    OwnStep(own, db, e);
    ChainSharesExpiry(own, db.rows, {}, j);
    LiveIn(next.rows, next.now, k);
    NeverAcceptedAgain(own, next, k, run);
    if TipOf(db.rows, j).Some? {
      TipSpent(db.rows, {}, j, TipOf(db.rows, j).value, RowOf(e, db.now));
    }
  }

  /** Once the tip has a row without a successor, the walk comes to nothing. */
  lemma {:induction false} TipSpent(rows: Rows, seen: set<Jti>, j: Jti, tip: Jti, row: Row)
    requires Walk(rows, seen, j) == Some(tip) && tip !in seen && row.replacedBy.None?
    ensures Walk(rows[tip := row], seen, j).None?
    decreases rows.Keys - seen
  {
    if j in rows && rows[j].replacedBy.Some? {
      TipSpent(rows, seen + {j}, rows[j].replacedBy.value, tip, row);
    }
  }

  /**
   * A rotation is followed exactly when it is the first word on the token: two
   * refreshes that race, or one that races a revocation of the chain, hand out a
   * successor no walk ever reaches.
   */
  lemma RotationIsFollowedIff(db: Db, j: Jti, next: Jti, expiresAt: nat)
    requires !Refused(Rotate(j, next, expiresAt)) && next != j && next !in db.rows
    requires forall k | k in db.rows :: db.rows[k].replacedBy != Some(next)
    ensures TipOf(After(db, Rotate(j, next, expiresAt)).rows, j) == Some(next) <==> j !in db.rows
    ensures j in db.rows ==> forall k :: TipOf(After(db, Rotate(j, next, expiresAt)).rows, k) != Some(next)
  {
    var rows := After(db, Rotate(j, next, expiresAt)).rows;
    if j in db.rows {
      forall k ensures TipOf(rows, k) != Some(next) {
        TipIsQueried(rows, k, next);
      }
    } else {
      assert {} + {j} == {j} && Walk(rows, {j}, next) == Some(next);
    }
  }

  // ------------------------------------------------ what a statement tells later

  /** A statement is refused for a nil id and for nothing else, and then does nothing. */
  lemma NilIsRefused(db: Db, e: Event)
    ensures AnswerTo(db, e).InvalidInput? <==>
      || ((e.Revoke? || e.Rotate? || e.Consume? || e.RevokeChain? || e.Get?) && e.jti == 0)
      || (e.Rotate? && e.next == 0)
    ensures AnswerTo(db, e).InvalidInput? ==> After(db, e) == db
  {
  }

  /** A lookup finds a row up to its expiry, that instant excluded; a reload lists those of access tokens. */
  lemma FoundIff(db: Db, j: Jti)
    requires j != NIL
    ensures AnswerTo(db, Get(j)) ==
      Record(if j in db.rows && db.now < db.rows[j].expiresAt then Some(db.rows[j]) else None)
    ensures AnswerTo(db, SelectUnexpired).Jtis?
    ensures j in AnswerTo(db, SelectUnexpired).jtis
      <==> j in db.rows && db.now < db.rows[j].expiresAt && db.rows[j].access
  {
    LiveIn(db.rows, db.now, j);
  }

  lemma {:induction false} TimeGoesOn(db: Db, run: seq<Event>)
    ensures db.now <= Exec(db, run).now
    decreases |run|
  {
    if run != [] {
      TimeGoesOn(After(db, run[0]), run[1..]);
    }
  }

  /** Until it expires a row stays, and as it was. */
  lemma {:induction false} RowIsKept(db: Db, j: Jti, run: seq<Event>)
    requires j in db.rows && Exec(db, run).now < db.rows[j].expiresAt
    ensures j in Exec(db, run).rows && Exec(db, run).rows[j] == db.rows[j]
    decreases |run|
  {
    if run != [] {
      TimeGoesOn(After(db, run[0]), run[1..]);
      RowIsKept(After(db, run[0]), j, run[1..]);
    }
  }

  /**
   * The first statement on a token has the last word until the expiry it named:
   * whatever runs meanwhile, a lookup finds its row, a reload lists it when it is
   * an access token's, and spending it answers that it was spent.
   */
  lemma FirstWordStays(db: Db, e: Event, run: seq<Event>)
    requires (e.Revoke? || e.Rotate? || e.Consume?) && !AnswerTo(db, e).InvalidInput? && e.jti !in db.rows
    requires Exec(After(db, e), run).now < e.expiresAt
    ensures var end := Exec(After(db, e), run);
      && AnswerTo(end, Get(e.jti)) ==
           Record(Some(Row(!e.Rotate? && e.access, e.expiresAt, db.now, if e.Rotate? then Some(e.next) else None)))
      && AnswerTo(end, SelectUnexpired).Jtis?
      && (e.jti in AnswerTo(end, SelectUnexpired).jtis <==> !e.Rotate? && e.access)
      && forall access, expiresAt :: AnswerTo(end, Consume(e.jti, access, expiresAt)) == FirstUse(false)
  {
    TimeGoesOn(After(db, e), run);
    RowIsKept(After(db, e), e.jti, run);
    FoundIff(Exec(After(db, e), run), e.jti);
  }

  /**
   * Of all attempts to spend a token before it expires the first succeeds, if
   * nothing was said of it before, and no other.
   */
  lemma SpentOnce(db: Db, e: Event, run: seq<Event>, again: Event)
    requires e.Consume? && again.Consume? && e.jti == again.jti != NIL
    requires Exec(After(db, e), run).now < e.expiresAt
    ensures AnswerTo(db, e) == FirstUse(e.jti !in db.rows)
    ensures AnswerTo(db, e) == FirstUse(true) ==> AnswerTo(Exec(After(db, e), run), again) == FirstUse(false)
  {
    if e.jti !in db.rows {
      FirstWordStays(db, e, run);
    }
  }

  /** Revoking a chain puts an outright revocation on its tip, which it answers with. */
  lemma ChainRevocationTells(db: Db, j: Jti, expiresAt: nat, tip: Jti, run: seq<Event>)
    requires AnswerTo(db, RevokeChain(j, expiresAt)) == Tip(Some(tip)) && tip != NIL
    requires Exec(After(db, RevokeChain(j, expiresAt)), run).now < expiresAt
    ensures AnswerTo(Exec(After(db, RevokeChain(j, expiresAt)), run), Get(tip))
         == Record(Some(Row(false, expiresAt, db.now, None)))
  {
    var next := After(db, RevokeChain(j, expiresAt));
    TimeGoesOn(next, run);
    RowIsKept(next, tip, run);
    FoundIff(Exec(next, run), tip);
  }

  // ------------------------------------------------------ where a sweep shows

  /** The ledger after some statements. */
  function Nexts(l: Ledger, run: seq<Event>): Ledger
    decreases |run|
  {
    if run == [] then l else Nexts(Next(l, run[0]), run[1..])
  }

  /** A run is safe exactly when all but its last statement are, and that one is where they lead. */
  lemma {:induction false} SafeToTheEnd(l: Ledger, run: seq<Event>, e: Event)
    ensures SweepSafe(l, run + [e]) <==> SweepSafe(l, run) && StepSafe(Nexts(l, run), e)
    decreases |run|
  {
    if run == [] {
      assert run + [e] == [e];
    } else {
      assert (run + [e])[0] == run[0] && (run + [e])[1..] == run[1..] + [e];
      SafeToTheEnd(Next(l, run[0]), run[1..], e);
    }
  }

  lemma UnsafeIsSeen(db: Db, run: seq<Event>, e: Event)
    requires SweepFree(run) && !e.Sweep? && !StepSafe(Nexts(Ledger(db, []), run), e)
    ensures !SweepsUnseen(db, run + [e])
  {
    SafeToTheEnd(Ledger(db, []), run, e);
    SweepsUnseenIff(db, run + [e]);
  }

  lemma NextsCons(l: Ledger, e: Event, run: seq<Event>)
    ensures Nexts(l, [e] + run) == Nexts(Next(l, e), run)
  {
    assert ([e] + run)[1..] == run;
  }

  lemma Nexts2(l: Ledger, e: Event, f: Event)
    ensures Nexts(l, [e, f]) == Next(Next(l, e), f)
  {
    NextsCons(Next(l, e), f, []);
    NextsCons(l, e, [f]);
    assert [f] + [] == [f] && [e] + [f] == [e, f];
  }

  lemma Nexts3(l: Ledger, e: Event, f: Event, g: Event)
    ensures Nexts(l, [e, f, g]) == Next(Next(Next(l, e), f), g)
  {
    Nexts2(Next(l, e), f, g);
    NextsCons(l, e, [f, g]);
    assert [e] + [f, g] == [e, f, g];
  }

  lemma {:induction false} NextsDb(l: Ledger, run: seq<Event>)
    ensures Nexts(l, run).db == Exec(l.db, run)
    decreases |run|
  {
    if run != [] {
      NextsDb(Next(l, run[0]), run[1..]);
    }
  }

  const EMPTY := Db(0, map[])

  /**
   * Without those premises the claim fails: a second revocation with a later
   * expiry takes effect only if the first row was swept; a single-use token
   * spent at its expiry can be spent twice; and a chain revoked at its expiry,
   * each row carrying the token's own, has a tip only while it is unswept.
   */
  lemma SweepsCanBeSeen()
    ensures !SweepsUnseen(EMPTY, [Revoke(1, false, 5), Tick(5)] + [Revoke(1, false, 9)])
    ensures !SweepsUnseen(EMPTY, [Consume(1, false, 5), Tick(5)] + [Consume(1, false, 5)])
    ensures !SweepsUnseen(EMPTY, [Rotate(1, 2, 5), Rotate(2, 3, 5), Tick(5)] + [RevokeChain(1, 5)])
    ensures OwnExpiry(AtFive, [Rotate(1, 2, 5), Rotate(2, 3, 5), Tick(5)] + [RevokeChain(1, 5)])
  {
    Revives();
    SpendsTwice();
    LateChain();
  }

  function AtFive(j: Jti): nat {
    5
  }

  lemma Revives()
    ensures !SweepsUnseen(EMPTY, [Revoke(1, false, 5), Tick(5)] + [Revoke(1, false, 9)])
  {
    Nexts2(Ledger(EMPTY, []), Revoke(1, false, 5), Tick(5));
    UnsafeIsSeen(EMPTY, [Revoke(1, false, 5), Tick(5)], Revoke(1, false, 9));
  }

  lemma SpendsTwice()
    ensures !SweepsUnseen(EMPTY, [Consume(1, false, 5), Tick(5)] + [Consume(1, false, 5)])
  {
    Nexts2(Ledger(EMPTY, []), Consume(1, false, 5), Tick(5));
    UnsafeIsSeen(EMPTY, [Consume(1, false, 5), Tick(5)], Consume(1, false, 5));
  }

  lemma LateChain()
    ensures !SweepsUnseen(EMPTY, [Rotate(1, 2, 5), Rotate(2, 3, 5), Tick(5)] + [RevokeChain(1, 5)])
    ensures OwnExpiry(AtFive, [Rotate(1, 2, 5), Rotate(2, 3, 5), Tick(5)] + [RevokeChain(1, 5)])
  {
    var l := Ledger(EMPTY, []);
    var run := [Rotate(1, 2, 5), Rotate(2, 3, 5), Tick(5)];
    Nexts3(l, Rotate(1, 2, 5), Rotate(2, 3, 5), Tick(5));
    NextsDb(l, run);
    var m := Nexts(l, run);
    var (a, b) := (Row(false, 5, 0, Some(2)), Row(false, 5, 0, Some(3)));
    assert After(EMPTY, Rotate(1, 2, 5)) == Db(0, map[1 := a]);
    assert After(Db(0, map[1 := a]), Rotate(2, 3, 5)) == Db(0, map[1 := a, 2 := b]);
    assert m.db == Db(5, map[1 := a, 2 := b]);
    TwoLinks(m.db, 1, 2, 3);
    assert 1 in Links(m.db.rows, {}, 1) && !WalkLive(m.db, 1);
    UnsafeIsSeen(EMPTY, run, RevokeChain(1, 5));
  }

  lemma TwoLinks(db: Db, a: Jti, b: Jti, c: Jti)
    requires a in db.rows && b in db.rows && c !in db.rows && a != b
    requires db.rows[a].replacedBy == Some(b) && db.rows[b].replacedBy == Some(c)
    ensures Links(db.rows, {}, a) == [a, b] && TipOf(db.rows, a) == Some(c)
  {
    var rows := db.rows;
    assert {} + {a} == {a};
    assert Walk(rows, {a}, b) == Walk(rows, {a} + {b}, c) == Some(c);
    assert Links(rows, {a} + {b}, c) == [] && Links(rows, {a}, b) == [b] + [];
    assert Links(rows, {}, a) == [a] + Links(rows, {a}, b);
  }

  /**
   * It is not enough that a sweep at the time of the call would not show: here
   * it would not, and one made while only the second row had expired does.
   */
  lemma AnEarlierSweepShows()
    ensures var (run, db) := ([Rotate(1, 2, 10), Revoke(2, false, 5), Tick(5)], Db(10, TwoRows()));
      && Exec(EMPTY, run + [Tick(5)]) == db
      && TipOf(db.rows, 1) == TipOf(Unexpired(db.rows, db.now), 1) == None
      && !SweepsUnseen(EMPTY, run + [Tick(5)] + [RevokeChain(1, 10)])
  {
    var run := [Rotate(1, 2, 10), Revoke(2, false, 5), Tick(5)];
    var (l, three) := (Ledger(EMPTY, []), Nexts(Ledger(EMPTY, []), run));
    assert three.db == Db(5, TwoRows()) by {
      Nexts3(l, run[0], run[1], run[2]);
      assert After(EMPTY, run[0]) == Db(0, map[1 := TwoRows()[1]]);
      assert After(Db(0, map[1 := TwoRows()[1]]), run[1]) == Db(0, TwoRows());
    }
    var m := Next(three, Tick(5));
    NextsEnd(l, run, Tick(5));
    NextsDb(l, run + [Tick(5)]);
    var one := map[1 := TwoRows()[1]];
    assert one in m.left by {
      assert Unexpired(TwoRows(), 5) == one;
      KeptIs(three, one);
      assert After(Db(5, one), Tick(5)).rows == one;
    }
    WalksApart();
    UnsafeIsSeen(EMPTY, run + [Tick(5)], RevokeChain(1, 10));
  }

  function TwoRows(): Rows {
    map[1 := Row(false, 10, 0, Some(2)), 2 := Row(false, 5, 0, None)]
  }

  lemma WalksApart()
    ensures TipOf(TwoRows(), 1) == None && TipOf(map[1 := TwoRows()[1]], 1) == Some(2)
    ensures TipOf(Unexpired(TwoRows(), 10), 1) == None && !WalkLive(Db(10, TwoRows()), 1)
  {
    var (rows, one) := (TwoRows(), map[1 := TwoRows()[1]]);
    assert {} + {1} == {1};
    assert Walk(rows, {1}, 2) == None && Walk(one, {1}, 2) == Some(2);
    assert Links(rows, {}, 1)[0] == 1 && 1 in Links(rows, {}, 1);
    assert Unexpired(rows, 10) == map[];
  }

  lemma {:induction false} NextsEnd(l: Ledger, run: seq<Event>, e: Event)
    ensures Nexts(l, run + [e]) == Next(Nexts(l, run), e)
    decreases |run|
  {
    if run == [] {
      assert run + [e] == [e] && [e] == [e] + [];
      NextsCons(l, e, []);
    } else {
      assert (run + [e])[0] == run[0] && (run + [e])[1..] == run[1..] + [e];
      NextsEnd(Next(l, run[0]), run[1..], e);
    }
  }

  // ------------------------------------------------ chains, told from the run

  /** No statement of the run writes over an expired row of these tokens. */
  predicate NoRewrites(tokens: set<Jti>, db: Db, run: seq<Event>)
    decreases |run|
  {
    run != [] ==>
      && (forall k | Target(db.rows, run[0]) == Some(k) :: k in tokens ==> !Dead(db, k))
      && NoRewrites(tokens, After(db, run[0]), run[1..])
  }

  function LinkSet(rows: Rows, j: Jti): set<Jti> {
    set k | k in Links(rows, {}, j)
  }

  /** If some row of the walk has expired so has the row of j. */
  predicate FirstAt(db: Db, j: Jti, walk: set<Jti>) {
    (exists k :: k in walk && Dead(db, k)) ==> Dead(db, j)
  }

  /** That held before every statement of the run. */
  predicate FirstToExpire(db: Db, run: seq<Event>, j: Jti, walk: set<Jti>) {
    forall p | 0 <= p < |run| :: FirstAt(Exec(db, run[..p]), j, walk)
  }

  /** What one swept table holds for one token: the row of the table never swept, unless that one is gone. */
  predicate HeldAs(rows: Rows, t: Rows, gone: bool, k: Jti) {
    if gone then k !in t else (k in t <==> k in rows) && (k in t ==> t[k] == rows[k])
  }

  lemma HeldStep(l: Ledger, t: Rows, e: Event, gone: bool, k: Jti)
    requires LedgerOk(l) && StepSafe(l, e) && !e.Sweep? && t in Kept(l)
    requires HeldAs(l.db.rows, t, gone, k) && (gone ==> Dead(l.db, k))
    requires Target(l.db.rows, e) == Some(k) ==> !Dead(l.db, k)
    ensures HeldAs(After(l.db, e).rows, After(Db(l.db.now, t), e).rows, gone, k)
    ensures gone ==> Dead(After(l.db, e), k)
  {
    KeptIs(l, t);
    SweepSwept(l.db.rows, l.db.rows, l.db.now);
    if e.RevokeChain? && !Refused(e) {
      ChainSame(l, t, e.jti);
    }
    assert Target(t, e) == Target(l.db.rows, e);
  }

  lemma {:induction false} HeldOver(l: Ledger, run: seq<Event>, i: nat, tokens: set<Jti>, gone: bool, k: Jti)
    requires LedgerOk(l) && SweepSafe(l, run) && SweepFree(run) && run != [] && i <= |l.left|
    requires HeldAs(l.db.rows, Kept(l)[i], gone, k) && (gone ==> Dead(l.db, k))
    requires k in tokens && NoRewrites(tokens, l.db, run)
    ensures |Nexts(l, run).left| == |l.left| + |run|
    ensures HeldAs(Nexts(l, run).db.rows, Nexts(l, run).left[i], gone, k)
    decreases |run|
  {
    var (e, rest, n) := (run[0], run[1..], Next(l, run[0]));
    assert !e.Sweep? && Kept(l)[i] in Kept(l);
    HeldStep(l, Kept(l)[i], e, gone, k);
    NextIsOk(l, e);
    assert n.left[i] == After(Db(l.db.now, Kept(l)[i]), e).rows;
    if rest != [] {
      assert Kept(n)[i] == n.left[i];
      HeldOver(n, rest, i, tokens, gone, k);
    }
  }

  /** The table swept before statement p has by the end lost the rows that had expired then. */
  lemma {:induction false} LeftHolds(l: Ledger, run: seq<Event>, p: nat, tokens: set<Jti>, k: Jti)
    requires LedgerOk(l) && SweepSafe(l, run) && SweepFree(run) && p < |run|
    requires k in tokens && NoRewrites(tokens, l.db, run)
    ensures |Nexts(l, run).left| == |l.left| + |run|
    ensures HeldAs(Nexts(l, run).db.rows, Nexts(l, run).left[|l.left| + p], Dead(Exec(l.db, run[..p]), k), k)
    decreases |run|
  {
    if p == 0 {
      LiveIn(l.db.rows, l.db.now, k);
      HeldOver(l, run, |l.left|, tokens, Dead(l.db, k), k);
    } else {
      NextIsOk(l, run[0]);
      LeftHolds(Next(l, run[0]), run[1..], p - 1, tokens, k);
      assert run[..p][0] == run[0] && run[..p][1..] == run[1..][..p - 1];
    }
  }

  /** A walk that came to nothing still does with some rows gone exactly when it met none of them. */
  lemma {:induction false} WalkWithout(rows: Rows, t: Rows, gone: set<Jti>, seen: set<Jti>, j: Jti)
    requires Walk(rows, seen, j).None?
    requires forall k | k in Links(rows, seen, j) :: HeldAs(rows, t, k in gone, k)
    requires forall k | k in seen :: k in t
    ensures Walk(t, seen, j).None? <==> forall k | k in Links(rows, seen, j) :: k !in gone
    decreases rows.Keys - seen
  {
    if j !in seen {
      assert j in Links(rows, seen, j) by { assert Links(rows, seen, j)[0] == j; }
      if j !in gone && rows[j].replacedBy.Some? {
        var k := rows[j].replacedBy.value;
        assert Links(rows, seen, j) == [j] + Links(rows, seen + {j}, k);
        WalkWithout(rows, t, gone, seen + {j}, k);
      }
    }
  }

  /** The start of the walk gone as well, there is nothing to walk. */
  lemma TipWithout(rows: Rows, t: Rows, gone: set<Jti>, j: Jti)
    requires j in rows && TipOf(rows, j).None?
    requires forall k | k in Links(rows, {}, j) :: HeldAs(rows, t, k in gone, k)
    ensures TipOf(t, j).None? <==> ((exists k :: k in Links(rows, {}, j) && k in gone) ==> j in gone)
  {
    LinksStart(rows, j);
    WalkWithout(rows, t, gone, {}, j);
  }

  /**
   * A chain that is not over, or whose first token has not expired, may be
   * revoked unseen exactly while all its rows live.
   */
  lemma LiveChainIff(db0: Db, run: seq<Event>, j: Jti, expiresAt: nat)
    requires SweepFree(run) && SweepsUnseen(db0, run) && j != NIL
    requires var db := Exec(db0, run); !Dead(db, j) || TipOf(db.rows, j).Some?
    ensures SweepsUnseen(db0, run + [RevokeChain(j, expiresAt)]) <==> WalkLive(Exec(db0, run), j)
  {
    RevokedUnseenIff(db0, run, j, expiresAt);
    NextsDb(Ledger(db0, []), run);
  }

  /**
   * One that is over and whose first token has expired may be exactly when that
   * token's row was the first of the walk to expire, no write having met one
   * since.
   */
  lemma FirstToExpireIff(db0: Db, run: seq<Event>, j: Jti, expiresAt: nat)
    requires SweepFree(run) && SweepsUnseen(db0, run) && j != NIL
    requires var db := Exec(db0, run);
      Dead(db, j) && TipOf(db.rows, j).None? && NoRewrites(LinkSet(db.rows, j), db0, run)
    ensures SweepsUnseen(db0, run + [RevokeChain(j, expiresAt)])
      <==> FirstToExpire(db0, run, j, LinkSet(Exec(db0, run).rows, j))
  {
    RevokedUnseenIff(db0, run, j, expiresAt);
    SweepsUnseenIff(db0, run);
    DeadChainSafeIff(db0, run, j);
  }

  /** Where sweeps were unseen they stay so exactly when the walk is safe. */
  lemma RevokedUnseenIff(db0: Db, run: seq<Event>, j: Jti, expiresAt: nat)
    requires SweepFree(run) && SweepsUnseen(db0, run) && j != NIL
    ensures SweepsUnseen(db0, run + [RevokeChain(j, expiresAt)]) <==> ChainSafe(Nexts(Ledger(db0, []), run), j)
  {
    SweepsUnseenIff(db0, run);
    SweepsUnseenIff(db0, run + [RevokeChain(j, expiresAt)]);
    SafeToTheEnd(Ledger(db0, []), run, RevokeChain(j, expiresAt));
  }

  lemma DeadChainSafeIff(db0: Db, run: seq<Event>, j: Jti)
    requires SweepFree(run) && SafeFrom(db0, run)
    requires var db := Exec(db0, run);
      Dead(db, j) && TipOf(db.rows, j).None? && NoRewrites(LinkSet(db.rows, j), db0, run)
    ensures ChainSafe(Nexts(Ledger(db0, []), run), j)
      <==> FirstToExpire(db0, run, j, LinkSet(Exec(db0, run).rows, j))
  {
    var (l, walk) := (Nexts(Ledger(db0, []), run), LinkSet(Exec(db0, run).rows, j));
    NextsDb(Ledger(db0, []), run);
    NextsLength(Ledger(db0, []), run);
    LinksStart(l.db.rows, j);
    assert !WalkLive(l.db, j);
    forall p | 0 <= p < |run|
      ensures TipOf(l.left[p], j).None? <==> FirstAt(Exec(db0, run[..p]), j, walk)
    {
      LeftTip(db0, run, p, j);
    }
  }

  lemma LinksStart(rows: Rows, j: Jti)
    requires j in rows
    ensures j in Links(rows, {}, j)
  {
    assert Links(rows, {}, j)[0] == j;
  }

  lemma {:induction false} NextsLength(l: Ledger, run: seq<Event>)
    ensures |Nexts(l, run).left| == |l.left| + |run|
    decreases |run|
  {
    if run != [] {
      NextsLength(Next(l, run[0]), run[1..]);
    }
  }

  lemma LeftTip(db0: Db, run: seq<Event>, p: nat, j: Jti)
    requires SweepFree(run) && SafeFrom(db0, run) && p < |run|
    requires var db := Exec(db0, run);
      j in db.rows && TipOf(db.rows, j).None? && NoRewrites(LinkSet(db.rows, j), db0, run)
    ensures |Nexts(Ledger(db0, []), run).left| == |run|
    ensures TipOf(Nexts(Ledger(db0, []), run).left[p], j).None?
      <==> FirstAt(Exec(db0, run[..p]), j, LinkSet(Exec(db0, run).rows, j))
  {
    var l := Ledger(db0, []);
    NextsDb(l, run);
    NextsLength(l, run);
    var (n, walk) := (Nexts(l, run), LinkSet(Exec(db0, run).rows, j));
    var gone := set k | k in walk && Dead(Exec(db0, run[..p]), k);
    forall k | k in Links(n.db.rows, {}, j) ensures HeldAs(n.db.rows, n.left[p], k in gone, k) {
      LeftHolds(l, run, p, walk, k);
    }
    TipWithout(n.db.rows, n.left[p], gone, j);
    LinksStart(n.db.rows, j);
  }

  /**
   * With a write over the expired row the order of expiry decides nothing: here
   * the row presented is still the first to expire, and a sweep shows.
   */
  lemma ARewriteShows()
    ensures var (run, db) := (Spent() + [Rotate(1, 3, 5)], Db(5, SpentRows()));
      && Exec(EMPTY, run) == db && Dead(db, 1) && TipOf(db.rows, 1).None? && LinkSet(db.rows, 1) == {1, 2}
      && FirstToExpire(EMPTY, run, 1, {1, 2})
      && SweepsUnseen(EMPTY, run) && !SweepsUnseen(EMPTY, run + [RevokeChain(1, 5)])
  {
    SpentWalks();
    SpentIsSafe();
    SpentOrder();
    SpentIsUnsafe();
    UnsafeIsSeen(EMPTY, Spent() + [Rotate(1, 3, 5)], RevokeChain(1, 5));
  }

  lemma SpentIsUnsafe()
    ensures var run := Spent() + [Rotate(1, 3, 5)];
      Exec(EMPTY, run) == Db(5, SpentRows()) && !ChainSafe(Nexts(Ledger(EMPTY, []), run), 1)
  {
    var (l, e) := (Ledger(EMPTY, []), Rotate(1, 3, 5));
    SpentStates();
    SpentWalks();
    NextsEnd(l, Spent(), e);
    NextsDb(l, Spent() + [e]);
    var m := Nexts(l, Spent());
    var over := Insert(Unexpired(SpentRows(), 5), 1, Row(false, 5, 5, Some(3)));
    KeptIs(m, Unexpired(SpentRows(), 5));
    assert over == After(Db(5, Unexpired(SpentRows(), 5)), e).rows;
    assert over in Next(m, e).left;
  }

  function Spent(): seq<Event> {
    [Rotate(1, 2, 5), Revoke(2, false, 10), Tick(5)]
  }

  function SpentRows(): Rows {
    map[1 := Row(false, 5, 0, Some(2)), 2 := Row(false, 10, 0, None)]
  }

  lemma SpentStates()
    ensures var l := Ledger(EMPTY, []);
      && Exec(EMPTY, Spent()[..0]) == EMPTY
      && Exec(EMPTY, Spent()[..1]) == Db(0, map[1 := SpentRows()[1]])
      && Exec(EMPTY, Spent()[..2]) == Db(0, SpentRows())
      && Nexts(l, Spent()).db == Exec(EMPTY, Spent()) == Db(5, SpentRows())
  {
    var (l, run) := (Ledger(EMPTY, []), Spent());
    var one := map[1 := SpentRows()[1]];
    assert After(EMPTY, run[0]) == Db(0, one);
    assert After(Db(0, one), run[1]) == Db(0, SpentRows());
    NextsCons(l, run[0], []);
    Nexts2(l, run[0], run[1]);
    Nexts3(l, run[0], run[1], run[2]);
    assert run[..1] == [run[0]] + [] && run[..2] == [run[0], run[1]];
    NextsDb(l, run[..1]);
    NextsDb(l, run[..2]);
    NextsDb(l, run);
  }

  lemma SpentWalks()
    ensures LinkSet(SpentRows(), 1) == {1, 2} && TipOf(SpentRows(), 1).None? && !WalkLive(Db(5, SpentRows()), 1)
    ensures TipOf(Insert(Unexpired(SpentRows(), 5), 1, Row(false, 5, 5, Some(3))), 1) == Some(3)
  {
    var (rows, over) := (SpentRows(), Insert(Unexpired(SpentRows(), 5), 1, Row(false, 5, 5, Some(3))));
    assert {} + {1} == {1};
    assert Links(rows, {1}, 2) == [2] && Links(rows, {}, 1) == [1] + [2];
    assert Walk(rows, {1}, 2).None?;
    assert 3 !in over && over[1].replacedBy == Some(3) && Walk(over, {1}, 3) == Some(3);
  }

  lemma SpentIsSafe()
    ensures SweepsUnseen(EMPTY, Spent() + [Rotate(1, 3, 5)])
  {
    var l := Ledger(EMPTY, []);
    SpentStates();
    SafeToTheEnd(l, Spent(), Rotate(1, 3, 5));
    NextsCons(l, Spent()[0], []);
    Nexts2(l, Spent()[0], Spent()[1]);
    assert Spent() == ([Spent()[0]] + [Spent()[1]]) + [Spent()[2]];
    SafeToTheEnd(l, [Spent()[0]] + [Spent()[1]], Spent()[2]);
    SafeToTheEnd(l, [Spent()[0]], Spent()[1]);
    SafeToTheEnd(l, [], Spent()[0]);
    SweepsUnseenIff(EMPTY, Spent() + [Rotate(1, 3, 5)]);
  }

  lemma SpentOrder()
    ensures FirstToExpire(EMPTY, Spent() + [Rotate(1, 3, 5)], 1, {1, 2})
  {
    var run := Spent() + [Rotate(1, 3, 5)];
    SpentStates();
    forall p | 0 <= p < |run| ensures FirstAt(Exec(EMPTY, run[..p]), 1, {1, 2}) {
      assert p < 3 ==> run[..p] == Spent()[..p];
      assert p == 3 ==> run[..p] == Spent();
    }
  }

  // -------------------------------------------------- conservation and growth

  function Inserted(db: Db, e: Event): nat {
    var target := Target(db.rows, e);
    if target.Some? && target.value !in db.rows then 1 else 0
  }

  function TotalInserted(db: Db, run: seq<Event>): nat
    decreases |run|
  {
    if run == [] then 0 else Inserted(db, run[0]) + TotalInserted(After(db, run[0]), run[1..])
  }

  function TotalRemoved(db: Db, run: seq<Event>): nat
    decreases |run|
  {
    if run == [] then 0
    else (if run[0].Sweep? then AnswerTo(db, run[0]).count else 0) + TotalRemoved(After(db, run[0]), run[1..])
  }

  lemma SweepSplits(rows: Rows, now: nat)
    ensures |rows| == |Unexpired(rows, now)| + |Expired(rows, now)|
  {
    var live, dead := Unexpired(rows, now).Keys, Expired(rows, now);
    assert rows.Keys == live + dead && live !! dead;
    assert |rows| == |rows.Keys| && |Unexpired(rows, now)| == |live|;
  }

  lemma StepConserves(db: Db, e: Event)
    ensures |After(db, e).rows| + (if e.Sweep? then AnswerTo(db, e).count else 0) == |db.rows| + Inserted(db, e)
  {
    if e.Sweep? {
      SweepSplits(db.rows, db.now);
    } else if Inserted(db, e) == 1 {
      var j := Target(db.rows, e).value;
      assert After(db, e).rows.Keys == db.rows.Keys + {j};
      assert |After(db, e).rows| == |After(db, e).rows.Keys|;
    }
  }

  /** However sweeps race, rows removed plus rows left are the rows there were plus the rows inserted. */
  lemma {:induction false} SweepsConserve(db: Db, run: seq<Event>)
    ensures |Exec(db, run).rows| + TotalRemoved(db, run) == |db.rows| + TotalInserted(db, run)
    decreases |run|
  {
    if run != [] {
      StepConserves(db, run[0]);
      SweepsConserve(After(db, run[0]), run[1..]);
    }
  }

  /** The database, when each row went in, and when it was last swept. */
  datatype Log = Log(db: Db, insertedAt: map<Jti, nat>, lastSweep: nat)

  function Logged(l: Log, e: Event): Log {
    var after := After(l.db, e);
    Log(
      after,
      map j | j in after.rows :: if j in l.insertedAt then l.insertedAt[j] else l.db.now,
      if e.Sweep? then l.db.now else l.lastSweep)
  }

  function Play(l: Log, run: seq<Event>): Log
    decreases |run|
  {
    if run == [] then l else Play(Logged(l, run[0]), run[1..])
  }

  predicate SweptOftenNow(life: nat, every: nat, l: Log, e: Event) {
    && (e.Tick? ==> l.db.now + e.elapsed <= l.lastSweep + every)
    && (Target(l.db.rows, e).Some? ==> RowOf(e, l.db.now).expiresAt <= l.db.now + life)
  }

  /** Rows live at most `life` past their insertion and a sweep runs at least every `every`. */
  predicate SweptOften(life: nat, every: nat, l: Log, run: seq<Event>)
    decreases |run|
  {
    run != [] ==> SweptOftenNow(life, every, l, run[0]) && SweptOften(life, every, Logged(l, run[0]), run[1..])
  }

  ghost predicate YoungRows(life: nat, every: nat, l: Log) {
    && l.insertedAt.Keys == l.db.rows.Keys
    && l.lastSweep <= l.db.now <= l.lastSweep + every
    && forall j | j in l.insertedAt ::
         && l.db.rows[j].expiresAt <= l.insertedAt[j] + life
         && (l.lastSweep < l.db.rows[j].expiresAt || l.lastSweep <= l.insertedAt[j])
  }

  /** Every row present was inserted within the last `life + every`. */
  lemma {:induction false} RowsAreYoung(life: nat, every: nat, l: Log, run: seq<Event>)
    requires YoungRows(life, every, l) && SweptOften(life, every, l, run)
    ensures var p := Play(l, run);
      && p.insertedAt.Keys == p.db.rows.Keys
      && forall j | j in p.insertedAt :: p.db.now <= p.insertedAt[j] + life + every
    decreases |run|
  {
    if run != [] {
      YoungStep(life, every, l, run[0]);
      RowsAreYoung(life, every, Logged(l, run[0]), run[1..]);
    }
  }

  lemma YoungStep(life: nat, every: nat, l: Log, e: Event)
    requires YoungRows(life, every, l) && SweptOftenNow(life, every, l, e)
    ensures YoungRows(life, every, Logged(l, e))
  {
  }

  // ------------------------------------------------------------- the sweeper

  /** The store: one table, whoever writes it. */
  class RevokedTokens {
    var db: Db

    method DeleteExpired() returns (removed: nat)
      modifies this
      ensures db == After(old(db), Sweep) && AnswerTo(old(db), Sweep) == Removed(removed)
      ensures |db.rows| + removed == |old(db).rows|
    {
      SweepSplits(db.rows, db.now);
      removed := |Expired(db.rows, db.now)|;
      db := db.(rows := Unexpired(db.rows, db.now));
    }

    /** What reaches the table from everyone else, other replicas' sweeps included. */
    method Serve(others: seq<Event>)
      modifies this
      ensures db == Exec(old(db), others)
    {
      for i := 0 to |others|
        invariant Exec(db, others[i..]) == Exec(old(db), others)
      {
        assert others[i..][0] == others[i] && others[i..][1..] == others[i + 1..];
        db := After(db, others[i]);
      }
    }
  }

  /** What the sweeper's select wakes up to, and what happened since; a sweep's statement may fail. */
  datatype Wake = Ticked(others: seq<Event>, ok: bool) | Cancelled

  /** Everything that reached the table until the loop ended. */
  function Schedule(wakes: seq<Wake>): seq<Event>
    decreases |wakes|
  {
    if wakes == [] || wakes[0].Cancelled? then []
    else wakes[0].others + (if wakes[0].ok then [Sweep] else []) + Schedule(wakes[1..])
  }

  /** The same without this loop's sweeps. */
  function OthersOf(wakes: seq<Wake>): seq<Event>
    decreases |wakes|
  {
    if wakes == [] || wakes[0].Cancelled? then [] else wakes[0].others + OthersOf(wakes[1..])
  }

  lemma {:induction false} ExecAppended(db: Db, a: seq<Event>, b: seq<Event>)
    ensures Exec(db, a + b) == Exec(Exec(db, a), b)
    decreases |a|
  {
    if a == [] {
      assert a + b == b;
    } else {
      assert (a + b)[0] == a[0] && (a + b)[1..] == a[1..] + b;
      ExecAppended(After(db, a[0]), a[1..], b);
    }
  }

  lemma OneWake(db: Db, wakes: seq<Wake>)
    requires wakes != [] && wakes[0].Ticked?
    ensures var served := Exec(db, wakes[0].others);
      Exec(db, Schedule(wakes)) == Exec(if wakes[0].ok then After(served, Sweep) else served, Schedule(wakes[1..]))
  {
    var (others, sweep, rest) := (wakes[0].others, if wakes[0].ok then [Sweep] else [], Schedule(wakes[1..]));
    assert Schedule(wakes) == others + (sweep + rest);
    ExecAppended(db, others, sweep + rest);
    ExecAppended(Exec(db, others), sweep, rest);
    if wakes[0].ok {
      assert [Sweep][1..] == [];
    }
  }

  /**
   * The sweep loop: once at startup, which is the first wake, then on every tick
   * until the context ends, whatever else is written to the table meanwhile and
   * whichever sweeps fail.
   */
  method StartSweeper(store: RevokedTokens?, interval: int, wakes: seq<Wake>)
    modifies store
    ensures store != null ==>
      store.db == if interval <= 0 then old(store.db) else Exec(old(store.db), Schedule(wakes))
  {
    if store == null || interval <= 0 {
      return;
    }
    var i := 0;
    while i < |wakes|
      invariant i <= |wakes|
      invariant Exec(store.db, Schedule(wakes[i..])) == Exec(old(store.db), Schedule(wakes))
    {
      assert wakes[i..][0] == wakes[i] && wakes[i..][1..] == wakes[i + 1..];
      if wakes[i].Cancelled? {
        return;
      }
      OneWake(store.db, wakes[i..]);
      store.Serve(wakes[i].others);
      if wakes[i].ok {
        var removed := store.DeleteExpired();
      }
      i := i + 1;
    }
  }

  lemma {:induction false} ScheduleAppended(a: seq<Wake>, b: seq<Wake>)
    requires forall i | 0 <= i < |a| :: a[i].Ticked?
    ensures Schedule(a + b) == Schedule(a) + Schedule(b)
    decreases |a|
  {
    if a == [] {
      assert a + b == b;
    } else {
      assert (a + b)[0] == a[0] && (a + b)[1..] == a[1..] + b;
      ScheduleAppended(a[1..], b);
    }
  }

  /** Right after each wake of the loop whose sweep succeeds, the first at startup included, no expired row is left. */
  lemma SweptAtEachWake(db: Db, wakes: seq<Wake>, i: nat)
    requires i < |wakes| && (forall k | 0 <= k <= i :: wakes[k].Ticked?) && wakes[i].ok
    ensures Schedule(wakes[..i + 1]) <= Schedule(wakes)
    ensures var at := Exec(db, Schedule(wakes[..i + 1])); forall j | j in at.rows :: at.now < at.rows[j].expiresAt
  {
    var (before, one) := (wakes[..i], [wakes[i]]);
    assert wakes[..i + 1] == before + one && wakes == wakes[..i + 1] + wakes[i + 1..];
    ScheduleAppended(wakes[..i + 1], wakes[i + 1..]);
    ScheduleAppended(before, one);
    assert one[1..] == [];
    var first := Schedule(before) + wakes[i].others;
    assert Schedule(wakes[..i + 1]) == first + [Sweep];
    ExecAppended(db, first, [Sweep]);
    assert [Sweep][1..] == [];
  }

  /** Once cancelled the loop is over. */
  lemma CancelEnds(wakes: seq<Wake>, i: nat)
    requires i < |wakes| && wakes[i].Cancelled? && forall k | 0 <= k < i :: wakes[k].Ticked?
    ensures Schedule(wakes) == Schedule(wakes[..i])
  {
    assert wakes == wakes[..i] + wakes[i..];
    ScheduleAppended(wakes[..i], wakes[i..]);
  }

  lemma {:induction false} EraseAppended(a: seq<Event>, b: seq<Event>)
    ensures Erase(a + b) == Erase(a) + Erase(b)
    decreases |a|
  {
    if a == [] {
      assert a + b == b;
    } else {
      assert (a + b)[0] == a[0] && (a + b)[1..] == a[1..] + b;
      EraseAppended(a[1..], b);
    }
  }

  lemma {:induction false} ErasesToOthers(wakes: seq<Wake>)
    ensures Erase(Schedule(wakes)) == Erase(OthersOf(wakes))
    decreases |wakes|
  {
    if wakes != [] && wakes[0].Ticked? {
      var (others, sweep) := (wakes[0].others, if wakes[0].ok then [Sweep] else []);
      ErasesToOthers(wakes[1..]);
      assert Erase(sweep) == [];
      EraseAppended(others + sweep, Schedule(wakes[1..]));
      EraseAppended(others, sweep);
      EraseAppended(others, OthersOf(wakes[1..]));
    }
  }

  /**
   * Where everyone else's statements are safe, the loop changes no answer to any
   * of them and no row they could read, whenever it ran and however often it
   * failed: all see what they would have seen with no sweeper anywhere.
   */
  lemma SweeperIsUnseen(db: Db, wakes: seq<Wake>)
    requires SafeFrom(db, Erase(OthersOf(wakes)))
    ensures Observe(db, Schedule(wakes)) == Observe(db, Erase(OthersOf(wakes)))
  {
    ErasesToOthers(wakes);
    Simulation(Ledger(db, []), db.rows, Schedule(wakes));
  }
}
