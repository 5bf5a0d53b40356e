/**
 * The in-memory set of revoked access tokens a replica consults on every
 * request: what the last reload brought (`remote`) and what this replica
 * revoked itself (`local`), so that a reload never takes a local revocation
 * away.
 */
module RevokedAccessTokens {
  import opened Wrappers
  import opened Denylist
  import M = Mirrors

  datatype Sets = Sets(remote: set<Jti>, local: map<Jti, nat>) {
    predicate Contains(jti: Jti) {
      jti in remote || jti in local
    }
  }

  function Added(s: Sets, jti: Jti, expiresAt: nat): Sets {
    if jti == NIL then s else s.(local := s.local[jti := expiresAt])
  }

  /** The local entries whose token has not expired. */
  function Pruned(local: map<Jti, nat>, now: nat): map<Jti, nat> {
    map j | j in local && now < local[j] :: local[j]
  }

  /** A failed query, None, keeps both sets. */
  function Reloaded(s: Sets, answer: Option<set<Jti>>, now: nat): (r: Sets)
    ensures answer.Some? ==> forall j ::
      r.Contains(j) <==> j in answer.value || (j in s.local && now < s.local[j])
    ensures answer.None? ==> r == s
  {
    match answer
    case None => s
    case Some(jtis) => Sets(jtis, Pruned(s.local, now))
  }

  /** The mirror object. */
  class RevokedSet {
    var remote: set<Jti>
    var local: map<Jti, nat>
    var lastReload: nat
    var reloadFailures: nat

    ghost function View(): Sets
      reads this
    {
      Sets(remote, local)
    }

    constructor ()
      ensures View() == Sets({}, map[]) && lastReload == 0 && reloadFailures == 0
    {
      remote, local, lastReload, reloadFailures := {}, map[], 0, 0;
    }

    method Contains(jti: Jti) returns (found: bool)
      ensures found == View().Contains(jti)
      ensures found <==> jti in remote || jti in local
    {
      if jti in remote {
        return true;
      }
      return jti in local;
    }

    method Add(jti: Jti, expiresAt: nat)
      modifies this
      ensures View() == Added(old(View()), jti, expiresAt)
      ensures forall j :: View().Contains(j) <==> old(View()).Contains(j) || (j == jti && jti != NIL)
      ensures lastReload == old(lastReload) && reloadFailures == old(reloadFailures)
    {
      if jti == NIL {
        return;
      }
      local := local[jti := expiresAt];
    }

    /** Installs what the query answered; `now` is the instant it lands. */
    method Reload(answer: Option<seq<Jti>>, now: nat) returns (ok: bool)
      modifies this
      ensures ok == answer.Some?
      ensures View() == Reloaded(old(View()), if ok then Some(set j | j in answer.value) else None, now)
      ensures ok ==> forall j ::
        View().Contains(j) <==> j in answer.value || (j in old(local) && now < old(local)[j])
      ensures !ok ==> remote == old(remote) && local == old(local)
      ensures lastReload == if ok then now else old(lastReload)
      ensures reloadFailures == old(reloadFailures) + if ok then 0 else 1
    {
      if answer.None? {
        reloadFailures := reloadFailures + 1;
        return false;
      }
      var next: set<Jti> := {};
      for i := 0 to |answer.value|
        invariant next == set j | j in answer.value[..i]
        invariant local == old(local) && reloadFailures == old(reloadFailures)
      {
        next := next + {answer.value[i]};
      }
      remote := next;
      lastReload := now;
      PruneLocal(now);
      ok := true;
    }

    /** Copies the map only when an entry has expired. */
    method PruneLocal(now: nat)
      modifies this`local
      ensures local == Pruned(old(local), now)
    {
      var live := CountLive(local, now);
      if live == |local.Keys| {
        FullSubset(LiveKeys(local, now), local.Keys);
        assert forall j | j in local :: j in LiveKeys(local, now);
        return;
      }
      local := CopyLive(local, now);
    }
  }

  function LiveKeys(local: map<Jti, nat>, now: nat): set<Jti> {
    set j | j in local && now < local[j]
  }

  method CountLive(local: map<Jti, nat>, now: nat) returns (live: nat)
    ensures live == |LiveKeys(local, now)|
  {
    live := 0;
    var todo := local.Keys;
    ghost var kept: set<Jti> := {};
    while todo != {}
      invariant todo <= local.Keys && kept == LiveKeys(local, now) - todo && live == |kept|
      decreases |todo|
    {
      var j :| j in todo;
      if now < local[j] {
        live := live + 1;
        kept := kept + {j};
      }
      todo := todo - {j};
    }
  }

  method CopyLive(local: map<Jti, nat>, now: nat) returns (next: map<Jti, nat>)
    ensures next == Pruned(local, now)
  {
    next := map[];
    var todo := local.Keys;
    while todo != {}
      invariant todo <= local.Keys
      invariant next == map j | j in local && j !in todo && now < local[j] :: local[j]
      decreases |todo|
    {
      var j :| j in todo;
      if now < local[j] {
        next := next[j := local[j]];
      }
      todo := todo - {j};
    }
  }

  lemma {:induction false} FullSubset<T>(a: set<T>, b: set<T>)
    requires a <= b && |a| == |b|
    ensures a == b
  {
    if a != {} {
      var x :| x in a;
      FullSubset(a - {x}, b - {x});
      assert a == (a - {x}) + {x} && b == (b - {x}) + {x};
    } else {
      assert b == {};
    }
  }

  // -------------------------------------------- a local revocation is not lost

  /** What happens to one replica's sets: any query answer may land, however old. */
  datatype Op =
    | Pass(elapsed: nat)
    | Add(jti: Jti, expiresAt: nat)
    | Land(answer: Option<set<Jti>>)

  datatype Replica = Replica(now: nat, sets: Sets)

  function Step(r: Replica, op: Op): Replica {
    match op
    case Pass(d) => r.(now := r.now + d)
    case Add(j, e) => r.(sets := Added(r.sets, j, e))
    case Land(a) => r.(sets := Reloaded(r.sets, a, r.now))
  }

  function Steps(r: Replica, ops: seq<Op>): Replica
    decreases |ops|
  {
    if ops == [] then r else Steps(Step(r, ops[0]), ops[1..])
  }

  /** The request is let through: the token is unexpired and in neither set. */
  predicate Accepts(own: Jti -> nat, r: Replica, jti: Jti) {
    r.now < own(jti) && !r.sets.Contains(jti)
  }

  ghost predicate AddsOwn(own: Jti -> nat, ops: seq<Op>) {
    forall i | 0 <= i < |ops| && ops[i].Add? :: ops[i].expiresAt == own(ops[i].jti)
  }

  ghost predicate Held(own: Jti -> nat, r: Replica, jti: Jti) {
    own(jti) <= r.now || (jti in r.sets.local && r.sets.local[jti] == own(jti))
  }

  lemma {:induction false} HeldStays(own: Jti -> nat, r: Replica, jti: Jti, ops: seq<Op>)
    requires Held(own, r, jti) && AddsOwn(own, ops)
    ensures Held(own, Steps(r, ops), jti)
    decreases |ops|
  {
    if ops != [] {
      assert ops[0].Add? ==> ops[0].expiresAt == own(ops[0].jti);
      HeldStays(own, Step(r, ops[0]), jti, ops[1..]);
    }
  }

  /**
   * A token this replica revoked is refused here from that instant on, whatever
   * answers land afterwards, including one whose query ran before the logout.
   */
  lemma LocalRevocationSurvives(own: Jti -> nat, r: Replica, jti: Jti, ops: seq<Op>)
    requires jti != NIL && AddsOwn(own, ops)
    ensures !Accepts(own, Steps(Step(r, Add(jti, own(jti))), ops), jti)
  {
    HeldStays(own, Step(r, Add(jti, own(jti))), jti, ops);
  }

  // ------------------------------------------------- refused on every replica

  /** Some statement took the table from `before` to `after` at the instant `t`. */
  ghost predicate RowStep(before: Rows, after: Rows, t: nat) {
    exists e :: After(Db(t, before), e).rows == after
  }

  ghost predicate TableHistory(s: M.State<Rows>) {
    && M.WellFormed(s)
    && forall i | 0 <= i < |s.history| - 1 :: RowStep(s.history[i], s.history[i + 1], s.writtenAt[i + 1])
  }

  /** What the store answers the reload's query with at the instant of a snapshot. */
  function AnswerOf(a: M.Snapshot<Rows>): (jtis: set<Jti>)
    ensures AnswerTo(Db(a.at, a.value), SelectUnexpired) == Jtis(jtis)
  {
    AnswerTo(Db(a.at, a.value), SelectUnexpired).jtis
  }

  predicate NoAnswers(ops: seq<Op>) {
    forall i | 0 <= i < |ops| && ops[i].Land? :: ops[i].answer.None?
  }

  /** A replica's sets once it installed this answer, whatever they were, and through later failures and logouts. */
  function Loaded(before: Replica, a: M.Snapshot<Rows>, later: seq<Op>): Replica {
    Steps(Step(before, Land(Some(AnswerOf(a)))), later)
  }

  lemma {:induction false} AnsweredStays(r: Replica, ops: seq<Op>, jti: Jti)
    requires NoAnswers(ops) && jti in r.sets.remote
    ensures Steps(r, ops).sets.Contains(jti)
    decreases |ops|
  {
    if ops != [] {
      assert ops[0].Land? ==> ops[0].answer.None?;
      AnsweredStays(Step(r, ops[0]), ops[1..], jti);
    }
  }

  /** No statement but a sweep takes a row away, and that only once it has expired. */
  lemma {:induction false} RowStays(s: M.State<Rows>, jti: Jti, k: nat, v: nat)
    requires TableHistory(s) && k <= v < |s.history| && jti in s.history[k]
    requires forall i, j | 0 <= i <= j < |s.writtenAt| :: s.writtenAt[i] <= s.writtenAt[j]
    ensures s.history[k][jti].expiresAt <= s.writtenAt[v]
      || (jti in s.history[v] && s.history[v][jti] == s.history[k][jti])
    decreases v
  {
    if k < v {
      RowStays(s, jti, k, v - 1);
      assert RowStep(s.history[v - 1], s.history[v], s.writtenAt[v]);
      var e :| After(Db(s.writtenAt[v], s.history[v - 1]), e).rows == s.history[v];
      LiveIn(s.history[v - 1], s.writtenAt[v], jti);
    }
  }

  /** Any content is a valid denylist. */
  predicate AnyTable(rows: Rows) {
    true
  }

  /**
   * In every run, a token whose revocation is older than the staleness bound is
   * expired or in the set that every serving replica consults, loaded with the
   * answer that replica mirrors.
   */
  lemma RevokedEverywhere(
    tm: M.Timing, n: nat, rows: Rows, run: seq<M.Event<Rows>>, s: M.State<Rows>, r: nat, jti: Jti, k: nat,
    before: Replica, later: seq<Op>)
    requires M.Exec(tm, AnyTable, M.Initial(n, rows), run) == Some(s) && M.IsServing(s, r)
    requires TableHistory(s) && k < |s.history| && jti in s.history[k] && s.history[k][jti].access
    requires s.writtenAt[k] + M.Bound(tm, s.replicas[r].failures) < s.now && NoAnswers(later)
    ensures s.history[k][jti].expiresAt <= s.now
      || Loaded(before, s.replicas[r].current, later).sets.Contains(jti)
  {
    M.BoundedStaleness(tm, AnyTable, n, rows, run, s, r);
    var a := s.replicas[r].current;
    assert s.writtenAt[k] < a.at;
    RowStays(s, jti, k, a.version);
    LiveIn(a.value, a.at, jti);
    if s.history[k][jti].expiresAt > s.now {
      assert jti in AnswerOf(a);
      AnsweredStays(Step(before, Land(Some(AnswerOf(a)))), later, jti);
    }
  }

  // ---------------------------------------------- what Validate says about it

  const MINUTE := 60_000_000_000
  const ACCESS_MIN := 2 * MINUTE
  const ACCESS_MAX := 48 * 60 * MINUTE

  datatype Verdict = Accepted | NotPositive | TooSlow

  /** The two checks on the reload interval, in the order they are made. */
  function ValidateReload(enabled: bool, interval: int): Verdict {
    if enabled && interval <= 0 then NotPositive
    else if enabled && interval >= ACCESS_MIN then TooSlow
    else Accepted
  }

  /** An interval is accepted exactly when it is positive and every permitted token outlives it. */
  lemma AcceptedIff(interval: int)
    ensures ValidateReload(true, interval).Accepted?
      <==> 0 < interval && forall access | PermittedLifetime(access) :: interval < access
    ensures ValidateReload(true, interval).Accepted? <==> 0 < interval < 120_000_000_000
  {
    assert PermittedLifetime(ACCESS_MIN);
  }

  predicate PermittedLifetime(access: int) {
    ACCESS_MIN <= access <= ACCESS_MAX
  }

  /**
   * The check is about the interval and not about the bound: an accepted
   * interval still leaves a permitted token that expires before its revocation
   * is due everywhere, exactly when twice the query timeout reaches the margin.
   */
  lemma BoundFitsIff(tm: M.Timing)
    requires ValidateReload(true, tm.interval).Accepted?
    ensures (forall access | PermittedLifetime(access) :: M.Bound(tm, 0) < access)
      <==> 2 * tm.timeout < ACCESS_MIN - tm.interval
  {
    assert PermittedLifetime(ACCESS_MIN);
    assert M.Bound(tm, 0) == tm.interval + 2 * tm.timeout;
  }

  /**
   * Under an accepted interval, while no reload fails, and with a query timeout
   * that leaves the margin: once a revocation is as old as the shortest life an
   * access token can have, no replica still lets the token through.
   */
  lemma RevokedWithinTheShortestLife(
    tm: M.Timing, n: nat, rows: Rows, run: seq<M.Event<Rows>>, s: M.State<Rows>, r: nat, jti: Jti, k: nat,
    before: Replica, later: seq<Op>)
    requires M.Exec(tm, AnyTable, M.Initial(n, rows), run) == Some(s) && M.IsServing(s, r)
    requires TableHistory(s) && k < |s.history| && jti in s.history[k] && s.history[k][jti].access
    requires ValidateReload(true, tm.interval).Accepted? && 2 * tm.timeout < ACCESS_MIN - tm.interval
    requires s.replicas[r].failures == 0 && s.writtenAt[k] + ACCESS_MIN <= s.now && NoAnswers(later)
    ensures s.history[k][jti].expiresAt <= s.now
      || Loaded(before, s.replicas[r].current, later).sets.Contains(jti)
  {
    BoundFitsIff(tm);
    assert PermittedLifetime(ACCESS_MIN);
    RevokedEverywhere(tm, n, rows, run, s, r, jti, k, before, later);
  }
}
