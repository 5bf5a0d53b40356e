/**
 * N replicas mirror one stored value each in memory: the token lifetimes, the
 * rate-limit rules and the revoked access tokens all follow this protocol.
 *
 * A reload is two steps, as it is in the source: the store answers the query,
 * and later the answer is installed with an atomic pointer store.  Nothing
 * serialises reloads, so a ticker's reload, one a change signal started and one
 * a local write started may overlap and land in any order.
 */
module Mirrors {
  import opened Wrappers

  /** The reload interval, and the query timeout that ends a call which hangs. */
  datatype Timing = Timing(interval: nat, timeout: nat)

  /** What the store answered: its content, which version that was, and when. */
  datatype Snapshot<V> = Snapshot(value: V, version: nat, at: nat)

  /** The loop in Run: waiting for a tick, or inside one Reload. */
  datatype Ticker<V> =
    | Idle(due: nat)
    | Calling(since: nat)
    | Answered(since: nat, answer: Snapshot<V>)

  /**
   * A replica is stopped, making its fatal first load, or serving.  While it
   * serves, `calls` counts reloads begun by a signal or by a local write whose
   * query has not answered, and `answers` holds the answers not yet installed.
   * `lastGood` is the ticker's last success, `lastEnd` the end of its last
   * attempt and `failures` how many attempts failed since `lastGood`.
   */
  datatype Replica<V> =
    | Stopped
    | Starting(since: nat, first: Option<Snapshot<V>>)
    | Serving(
        current: Snapshot<V>, ticker: Ticker<V>, calls: nat, answers: seq<Snapshot<V>>,
        lastGood: nat, lastEnd: nat, failures: nat)

  /**
   * The cluster.  `history` is every content the store ever had, oldest first,
   * `writtenAt` when each was written, and `wire` the replicas that announced a
   * change: an announcement stays on the wire, so it may be delivered late,
   * repeatedly, out of order or never.
   */
  datatype State<V> = State(
    now: nat, history: seq<V>, writtenAt: seq<nat>, replicas: seq<Replica<V>>, wire: set<nat>)

  /** What may happen at one replica. */
  datatype Change<V> =
    | Write(value: V)
    | Deliver(from: nat)
    | CallAnswered
    | CallFailed
    | Install(which: nat)
    | Reject(which: nat)
    | TickCall
    | TickAnswered
    | TickInstall(due: nat)
    | TickFailed(due: nat)
    | Boot
    | BootAnswered
    | BootInstall(due: nat)
    | BootFailed
    | Stop

  datatype Event<V> =
    | Advance(elapsed: nat)
    | Notify(writer: nat)
    | At(who: nat, what: Change<V>)

  ghost predicate WellFormed<V>(s: State<V>) {
    |s.history| == |s.writtenAt| >= 1
  }

  function Latest<V>(s: State<V>): V
    requires WellFormed(s)
  {
    s.history[|s.history| - 1]
  }

  function Query<V>(s: State<V>): Snapshot<V>
    requires WellFormed(s)
  {
    Snapshot(Latest(s), |s.history| - 1, s.now)
  }

  /** Time may pass until `t` only if no tick is missed and no call outlives its timeout. */
  ghost predicate MayWait<V>(tm: Timing, r: Replica<V>, t: nat) {
    match r
    case Stopped => true
    case Starting(since, _) => t <= since + tm.timeout
    case Serving(_, ticker, _, answers, _, _, _) =>
      && (match ticker
          case Idle(due) => t <= due
          case Calling(since) => t <= since + tm.timeout
          case Answered(since, _) => t <= since + tm.timeout)
      && forall a | a in answers :: t <= a.at + tm.timeout
  }

  ghost predicate IsServing<V>(s: State<V>, r: nat) {
    r < |s.replicas| && s.replicas[r].Serving?
  }

  ghost predicate May<V(!new)>(tm: Timing, valid: V -> bool, s: State<V>, r: Replica<V>, c: Change<V>) {
    match c
    case Write(v) => r.Serving?
    case Deliver(from) => r.Serving? && from in s.wire
    case CallAnswered => r.Serving? && r.calls > 0
    case CallFailed => r.Serving? && r.calls > 0
    case Install(k) => r.Serving? && k < |r.answers| && valid(r.answers[k].value)
    case Reject(k) => r.Serving? && k < |r.answers| && !valid(r.answers[k].value)
    case TickCall => r.Serving? && r.ticker.Idle? && r.ticker.due <= s.now
    case TickAnswered => r.Serving? && r.ticker.Calling?
    case TickInstall(due) =>
      && r.Serving? && r.ticker.Answered? && valid(r.ticker.answer.value)
      && s.now <= due <= s.now + tm.interval
    case TickFailed(due) => r.Serving? && !r.ticker.Idle? && s.now <= due <= s.now + tm.interval
    case Boot => r.Stopped?
    case BootAnswered => r.Starting? && r.first.None?
    case BootInstall(due) =>
      && r.Starting? && r.first.Some? && valid(r.first.value.value)
      && s.now <= due <= s.now + tm.interval
    case BootFailed => r.Starting?
    case Stop => r.Serving?
  }

  ghost predicate Enabled<V(!new)>(tm: Timing, valid: V -> bool, s: State<V>, e: Event<V>) {
    match e
    case Advance(d) => forall r | r in s.replicas :: MayWait(tm, r, s.now + d)
    case Notify(w) => IsServing(s, w)
    case At(i, c) => i < |s.replicas| && May(tm, valid, s, s.replicas[i], c)
  }

  function Remove<T>(xs: seq<T>, k: nat): (r: seq<T>)
    requires k < |xs|
  {
    xs[..k] + xs[k + 1..]
  }

  /** Replica `me` after a change. */
  ghost function Move<V(!new)>(
    tm: Timing, valid: V -> bool, s: State<V>, me: nat, r: Replica<V>, c: Change<V>): Replica<V>
    requires WellFormed(s) && May(tm, valid, s, r, c)
  {
    match c
    // The writer reloads its own mirror before it answers.
    case Write(_) => r.(calls := r.calls + 1)
    // An echo of the replica's own announcement is ignored.
    case Deliver(from) => if from == me then r else r.(calls := r.calls + 1)
    case CallAnswered => r.(calls := r.calls - 1, answers := r.answers + [Query(s)])
    case CallFailed => r.(calls := r.calls - 1)
    case Install(k) => r.(current := r.answers[k], answers := Remove(r.answers, k))
    // An answer the validator refuses is a failed reload.
    case Reject(k) => r.(answers := Remove(r.answers, k))
    case TickCall => r.(ticker := Calling(s.now))
    case TickAnswered => r.(ticker := Answered(r.ticker.since, Query(s)))
    case TickInstall(due) =>
      r.(current := r.ticker.answer, ticker := Idle(due), lastGood := s.now, lastEnd := s.now, failures := 0)
    case TickFailed(due) => r.(ticker := Idle(due), lastEnd := s.now, failures := r.failures + 1)
    case Boot => Starting(s.now, None)
    case BootAnswered => r.(first := Some(Query(s)))
    case BootInstall(due) => Serving(r.first.value, Idle(due), 0, [], s.now, s.now, 0)
    case BootFailed => Stopped
    case Stop => Stopped
  }

  ghost function Apply<V(!new)>(tm: Timing, valid: V -> bool, s: State<V>, e: Event<V>): State<V>
    requires WellFormed(s) && Enabled(tm, valid, s, e)
  {
    match e
    case Advance(d) => s.(now := s.now + d)
    case Notify(w) => s.(wire := s.wire + {w})
    case At(i, c) =>
      var t := Replace(s, i, Move(tm, valid, s, i, s.replicas[i], c));
      if c.Write? then Append(t, c.value) else t
  }

  function Replace<V>(s: State<V>, i: nat, r: Replica<V>): State<V>
    requires i < |s.replicas|
  {
    s.(replicas := s.replicas[i := r])
  }

  function Append<V>(s: State<V>, v: V): State<V> {
    s.(history := s.history + [v], writtenAt := s.writtenAt + [s.now])
  }

  /** The state after a whole run, or None when some event of it was not enabled. */
  ghost function Exec<V(!new)>(tm: Timing, valid: V -> bool, s: State<V>, run: seq<Event<V>>): Option<State<V>>
    requires WellFormed(s)
    decreases |run|
  {
    if run == [] then Some(s)
    else if !Enabled(tm, valid, s, run[0]) then None
    else Exec(tm, valid, Apply(tm, valid, s, run[0]), run[1..])
  }

  /** A cluster of n stopped replicas over a store that holds v. */
  function Initial<V>(n: nat, v: V): (s: State<V>)
    ensures WellFormed(s)
  {
    State(0, [v], [0], seq(n, _ => Stopped), {})
  }

  // ---------------------------------------------------------------- invariant

  /** The store really held `a.value` at the instant `a.at`. */
  ghost predicate HeldAt<V>(s: State<V>, a: Snapshot<V>)
    requires WellFormed(s)
  {
    && a.version < |s.history| && a.value == s.history[a.version]
    && s.writtenAt[a.version] <= a.at <= s.now
    && (a.version + 1 < |s.history| ==> a.at <= s.writtenAt[a.version + 1])
  }

  ghost predicate TickerOk<V>(tm: Timing, s: State<V>, k: Ticker<V>, lastEnd: nat)
    requires WellFormed(s)
  {
    match k
    case Idle(due) => s.now <= due <= lastEnd + tm.interval
    case Calling(since) => since <= lastEnd + tm.interval && since <= s.now <= since + tm.timeout
    case Answered(since, a) =>
      since <= lastEnd + tm.interval && since <= a.at && s.now <= since + tm.timeout && HeldAt(s, a)
  }

  ghost predicate ReplicaOk<V(!new)>(tm: Timing, valid: V -> bool, s: State<V>, r: Replica<V>)
    requires WellFormed(s)
  {
    match r
    case Stopped => true
    case Starting(since, first) =>
      && since <= s.now <= since + tm.timeout
      && (first.Some? ==> HeldAt(s, first.value) && since <= first.value.at)
    case Serving(current, ticker, calls, answers, lastGood, lastEnd, failures) =>
      && HeldAt(s, current) && valid(current.value)
      && (forall a | a in answers :: HeldAt(s, a) && s.now <= a.at + tm.timeout)
      && TickerOk(tm, s, ticker, lastEnd)
      && lastGood <= current.at + tm.timeout
      && lastGood <= lastEnd <= s.now
      && lastEnd <= lastGood + Reach(tm, failures)
  }

  /** Versions were written in order, none of them in the future. */
  ghost predicate Chronological<V>(s: State<V>) {
    && (forall i, j | 0 <= i <= j < |s.writtenAt| :: s.writtenAt[i] <= s.writtenAt[j])
    && (forall i | 0 <= i < |s.writtenAt| :: s.writtenAt[i] <= s.now)
  }

  ghost predicate Inv<V(!new)>(tm: Timing, valid: V -> bool, s: State<V>) {
    && WellFormed(s) && Chronological(s)
    && (forall r | r in s.replicas :: ReplicaOk(tm, valid, s, r))
  }

  lemma QueryHeld<V(!new)>(tm: Timing, valid: V -> bool, s: State<V>)
    requires Inv(tm, valid, s)
    ensures HeldAt(s, Query(s))
  {
  }

  /** What k failed ticks in a row can add to the age of a mirror. */
  function Reach(tm: Timing, k: nat): nat {
    if k == 0 then 0 else Reach(tm, k - 1) + tm.interval + tm.timeout
  }

  lemma {:induction false} ReachIsProduct(tm: Timing, k: nat)
    ensures Reach(tm, k) == k * (tm.interval + tm.timeout)
  {
    if k > 0 {
      ReachIsProduct(tm, k - 1);
    }
  }

  /** A change at one replica keeps that replica's invariant. */
  lemma MoveKeeps<V(!new)>(tm: Timing, valid: V -> bool, s: State<V>, me: nat, r: Replica<V>, c: Change<V>)
    requires WellFormed(s) && HeldAt(s, Query(s)) && ReplicaOk(tm, valid, s, r) && May(tm, valid, s, r, c)
    ensures ReplicaOk(tm, valid, s, Move(tm, valid, s, me, r, c))
  {
    if c.Install? {
      InstallKeeps(tm, valid, s, c.which, r);
    } else if c.Reject? {
      RejectKeeps(tm, valid, s, c.which, r);
    } else if c.TickInstall? || c.TickFailed? || c.TickCall? || c.TickAnswered? {
      TickKeeps(tm, valid, s, me, r, c);
    }
  }

  lemma InstallKeeps<V(!new)>(tm: Timing, valid: V -> bool, s: State<V>, k: nat, r: Replica<V>)
    requires WellFormed(s) && ReplicaOk(tm, valid, s, r) && r.Serving?
    requires k < |r.answers| && valid(r.answers[k].value)
    ensures ReplicaOk(tm, valid, s, r.(current := r.answers[k], answers := Remove(r.answers, k)))
  {
    assert r.answers[k] in r.answers;
    forall a | a in Remove(r.answers, k) ensures a in r.answers {}
  }

  lemma RejectKeeps<V(!new)>(tm: Timing, valid: V -> bool, s: State<V>, k: nat, r: Replica<V>)
    requires WellFormed(s) && ReplicaOk(tm, valid, s, r) && r.Serving? && k < |r.answers|
    ensures ReplicaOk(tm, valid, s, r.(answers := Remove(r.answers, k)))
  {
    forall a | a in Remove(r.answers, k) ensures a in r.answers {}
  }

  lemma TickKeeps<V(!new)>(tm: Timing, valid: V -> bool, s: State<V>, me: nat, r: Replica<V>, c: Change<V>)
    requires WellFormed(s) && HeldAt(s, Query(s)) && ReplicaOk(tm, valid, s, r) && May(tm, valid, s, r, c)
    requires c.TickInstall? || c.TickFailed? || c.TickCall? || c.TickAnswered?
    ensures ReplicaOk(tm, valid, s, Move(tm, valid, s, me, r, c))
  {
    assert Reach(tm, r.failures + 1) == Reach(tm, r.failures) + tm.interval + tm.timeout;
  }

  lemma ReplaceKeeps<V(!new)>(tm: Timing, valid: V -> bool, s: State<V>, i: nat, r: Replica<V>)
    requires Inv(tm, valid, s) && i < |s.replicas| && ReplicaOk(tm, valid, s, r)
    ensures Inv(tm, valid, Replace(s, i, r))
  {
    var t := Replace(s, i, r);
    forall x | x in t.replicas ensures ReplicaOk(tm, valid, t, x) {
      assert x == r || x in s.replicas;
      SameStore(tm, valid, s, t, x);
    }
  }

  /** What is asked of a replica depends only on the clock and the store. */
  lemma SameStore<V(!new)>(tm: Timing, valid: V -> bool, s: State<V>, t: State<V>, x: Replica<V>)
    requires WellFormed(s) && ReplicaOk(tm, valid, s, x)
    requires t.now == s.now && t.history == s.history && t.writtenAt == s.writtenAt
    ensures ReplicaOk(tm, valid, t, x)
  {
  }

  /** A write only appends a version, so nothing a replica holds stops being true. */
  lemma AppendKeeps<V(!new)>(tm: Timing, valid: V -> bool, s: State<V>, v: V)
    requires Inv(tm, valid, s)
    ensures Inv(tm, valid, Append(s, v))
  {
    var t := Append(s, v);
    forall x | x in t.replicas ensures ReplicaOk(tm, valid, t, x) {
      assert ReplicaOk(tm, valid, s, x);
    }
  }

  lemma WaitHeld<V>(s: State<V>, a: Snapshot<V>, d: nat)
    requires WellFormed(s) && HeldAt(s, a)
    ensures HeldAt(s.(now := s.now + d), a)
  {
  }

  lemma WaitChronological<V>(s: State<V>, d: nat)
    requires Chronological(s)
    ensures Chronological(s.(now := s.now + d))
  {
  }

  lemma WaitTicker<V>(tm: Timing, s: State<V>, k: Ticker<V>, lastEnd: nat, d: nat)
    requires WellFormed(s) && TickerOk(tm, s, k, lastEnd)
    requires match k
      case Idle(due) => s.now + d <= due
      case Calling(since) => s.now + d <= since + tm.timeout
      case Answered(since, _) => s.now + d <= since + tm.timeout
    ensures TickerOk(tm, s.(now := s.now + d), k, lastEnd)
  {
    if k.Answered? {
      WaitHeld(s, k.answer, d);
    }
  }

  lemma WaitKeepsOne<V(!new)>(tm: Timing, valid: V -> bool, s: State<V>, x: Replica<V>, d: nat)
    requires WellFormed(s) && ReplicaOk(tm, valid, s, x) && MayWait(tm, x, s.now + d)
    ensures ReplicaOk(tm, valid, s.(now := s.now + d), x)
  {
    match x
    case Stopped =>
    case Starting(since, first) =>
      if first.Some? {
        WaitHeld(s, first.value, d);
      }
    case Serving(current, ticker, calls, answers, lastGood, lastEnd, failures) =>
      WaitHeld(s, current, d);
      WaitTicker(tm, s, ticker, lastEnd, d);
      forall a | a in answers ensures HeldAt(s.(now := s.now + d), a) && s.now + d <= a.at + tm.timeout {
        WaitHeld(s, a, d);
      }
  }

  lemma WaitKeeps<V(!new)>(tm: Timing, valid: V -> bool, s: State<V>, d: nat)
    requires Inv(tm, valid, s) && forall r | r in s.replicas :: MayWait(tm, r, s.now + d)
    ensures Inv(tm, valid, s.(now := s.now + d))
  {
    WaitChronological(s, d);
    forall x | x in s.replicas ensures ReplicaOk(tm, valid, s.(now := s.now + d), x) {
      WaitKeepsOne(tm, valid, s, x, d);
    }
  }

  lemma AdvanceKeeps<V(!new)>(tm: Timing, valid: V -> bool, s: State<V>, d: nat)
    requires Inv(tm, valid, s) && Enabled(tm, valid, s, Advance(d))
    ensures Inv(tm, valid, Apply(tm, valid, s, Advance(d)))
  {
    Advances(tm, valid, s, d);
    WaitKeeps(tm, valid, s, d);
  }

  lemma Advances<V(!new)>(tm: Timing, valid: V -> bool, s: State<V>, d: nat)
    requires WellFormed(s) && Enabled(tm, valid, s, Advance(d))
    ensures Apply(tm, valid, s, Advance(d)) == s.(now := s.now + d)
    ensures forall r | r in s.replicas :: MayWait(tm, r, s.now + d)
  {
  }

  lemma ApplyKeepsInv<V(!new)>(tm: Timing, valid: V -> bool, s: State<V>, e: Event<V>)
    requires Inv(tm, valid, s) && Enabled(tm, valid, s, e)
    ensures Inv(tm, valid, Apply(tm, valid, s, e))
  {
    match e
    case Advance(d) => AdvanceKeeps(tm, valid, s, d);
    case Notify(w) => NotifyKeeps(tm, valid, s, w);
    case At(i, c) => ChangeKeeps(tm, valid, s, i, c);
  }

  lemma ChangeKeeps<V(!new)>(tm: Timing, valid: V -> bool, s: State<V>, i: nat, c: Change<V>)
    requires Inv(tm, valid, s) && i < |s.replicas| && May(tm, valid, s, s.replicas[i], c)
    ensures Inv(tm, valid, Apply(tm, valid, s, At(i, c)))
  {
    QueryHeld(tm, valid, s);
    var r := s.replicas[i];
    assert r in s.replicas;
    assert ReplicaOk(tm, valid, s, r);
    var moved := Move(tm, valid, s, i, r, c);
    MoveKeeps(tm, valid, s, i, r, c);
    ReplaceKeeps(tm, valid, s, i, moved);
    var t := Replace(s, i, moved);
    if c.Write? {
      AppendKeeps(tm, valid, t, c.value);
      assert Apply(tm, valid, s, At(i, c)) == Append(t, c.value);
    } else {
      assert Apply(tm, valid, s, At(i, c)) == t;
    }
  }

  lemma NotifyKeeps<V(!new)>(tm: Timing, valid: V -> bool, s: State<V>, w: nat)
    requires Inv(tm, valid, s) && Enabled(tm, valid, s, Notify(w))
    ensures Inv(tm, valid, Apply(tm, valid, s, Notify(w)))
  {
    var t := s.(wire := s.wire + {w});
    forall x | x in t.replicas ensures ReplicaOk(tm, valid, t, x) {
      assert ReplicaOk(tm, valid, s, x);
    }
  }

  lemma {:induction false} ExecKeepsInv<V(!new)>(tm: Timing, valid: V -> bool, s: State<V>, run: seq<Event<V>>)
    requires Inv(tm, valid, s) && Exec(tm, valid, s, run).Some?
    ensures Inv(tm, valid, Exec(tm, valid, s, run).value)
    decreases |run|
  {
    if run != [] {
      ApplyKeepsInv(tm, valid, s, run[0]);
      ExecKeepsInv(tm, valid, Apply(tm, valid, s, run[0]), run[1..]);
    }
  }

  // ---------------------------------------------------------------- staleness

  /** How old a mirror may be after `failures` ticks in a row failed. */
  function Bound(tm: Timing, failures: nat): nat {
    (failures + 1) * (tm.interval + tm.timeout) + tm.timeout
  }

  /**
   * Bounded staleness over every run: what a serving replica answers from is
   * what the store held at one instant at most `Bound` ago, whatever signals
   * were lost, repeated or reordered and however the reloads overlapped.
   */
  lemma BoundedStaleness<V(!new)>(
    tm: Timing, valid: V -> bool, n: nat, v: V, run: seq<Event<V>>, s: State<V>, r: nat)
    requires Exec(tm, valid, Initial(n, v), run) == Some(s) && IsServing(s, r)
    ensures Inv(tm, valid, s)
    ensures HeldAt(s, s.replicas[r].current) && valid(s.replicas[r].current.value)
    ensures s.now <= s.replicas[r].current.at + Bound(tm, s.replicas[r].failures)
  {
    ExecKeepsInv(tm, valid, Initial(n, v), run);
    assert ReplicaOk(tm, valid, s, s.replicas[r]);
    FreshEnough(tm, valid, s, r);
  }

  lemma FreshEnough<V(!new)>(tm: Timing, valid: V -> bool, s: State<V>, r: nat)
    requires Inv(tm, valid, s) && IsServing(s, r)
    ensures s.now <= s.replicas[r].current.at + Bound(tm, s.replicas[r].failures)
  {
    var m := s.replicas[r];
    assert ReplicaOk(tm, valid, s, m);
    assert s.now <= m.lastEnd + tm.interval + tm.timeout;
    ReachIsProduct(tm, m.failures + 1);
  }

  lemma ServingStep<V(!new)>(tm: Timing, valid: V -> bool, s: State<V>, e: Event<V>, r: nat)
    requires WellFormed(s) && IsServing(s, r) && Enabled(tm, valid, s, e) && e != At(r, Stop)
    ensures IsServing(Apply(tm, valid, s, e), r)
  {
  }

  /** Short of the replica stopping, nothing unloads a loaded mirror: no failed reload, no signal, no rejected answer. */
  lemma {:induction false} ServingStays<V(!new)>(tm: Timing, valid: V -> bool, s: State<V>, run: seq<Event<V>>, r: nat)
    requires Inv(tm, valid, s) && IsServing(s, r) && Exec(tm, valid, s, run).Some? && At(r, Stop) !in run
    ensures IsServing(Exec(tm, valid, s, run).value, r)
    decreases |run|
  {
    if run != [] {
      ServingStep(tm, valid, s, run[0], r);
      ApplyKeepsInv(tm, valid, s, run[0]);
      ServingStays(tm, valid, Apply(tm, valid, s, run[0]), run[1..], r);
    }
  }

  /**
   * Convergence: once the last write is older than the bound, a serving
   * replica's mirror is the store, whatever the message history was.
   */
  lemma Converged<V(!new)>(
    tm: Timing, valid: V -> bool, n: nat, v: V, run: seq<Event<V>>, s: State<V>, r: nat)
    requires Exec(tm, valid, Initial(n, v), run) == Some(s) && IsServing(s, r)
    requires WellFormed(s)
    requires s.writtenAt[|s.writtenAt| - 1] + Bound(tm, s.replicas[r].failures) < s.now
    ensures s.replicas[r].current.value == Latest(s)
  {
    BoundedStaleness(tm, valid, n, v, run, s, r);
    var m := s.replicas[r].current;
  }

  // ------------------------------------------------------ what a reload does

  /**
   * Only an answer that is installed changes what a serving replica answers
   * from: a failed reload keeps the last good copy.
   */
  lemma OnlyInstallsChange<V(!new)>(
    tm: Timing, valid: V -> bool, s: State<V>, me: nat, r: Replica<V>, c: Change<V>)
    requires WellFormed(s) && May(tm, valid, s, r, c) && r.Serving? && !c.Stop?
    ensures var t := Move(tm, valid, s, me, r, c);
      && t.Serving?
      && t.current == (if c.Install? then r.answers[c.which] else if c.TickInstall? then r.ticker.answer else r.current)
      && (!c.Install? && !c.Reject? ==> t.answers == if c.CallAnswered? then r.answers + [Query(s)] else r.answers)
      && (c.Install? || c.Reject? ==> multiset(t.answers) == multiset(r.answers) - multiset{r.answers[c.which]})
  {
    if c.Install? || c.Reject? {
      var k := c.which;
      assert r.answers == r.answers[..k] + [r.answers[k]] + r.answers[k + 1..];
    }
  }

  /** An announcement can be delivered ever after, and nothing is delivered that was not announced. */
  lemma {:induction false} AnnouncedStays<V(!new)>(
    tm: Timing, valid: V -> bool, s: State<V>, run: seq<Event<V>>, from: nat)
    requires WellFormed(s) && Exec(tm, valid, s, run).Some?
    ensures from in Exec(tm, valid, s, run).value.wire <==> from in s.wire || Notify(from) in run
    ensures forall r :: At(r, Deliver(from)) in run ==> from in s.wire || Notify(from) in run
    decreases |run|
  {
    if run != [] {
      AnnouncedStays(tm, valid, Apply(tm, valid, s, run[0]), run[1..], from);
    }
  }

  /** A reload begun at once, run without the clock moving: what is installed is the store's content then. */
  lemma ReloadFreshens<V(!new)>(tm: Timing, valid: V -> bool, s: State<V>, e: Event<V>, r: nat)
    requires WellFormed(s) && IsServing(s, r) && Enabled(tm, valid, s, e)
    requires var t := Apply(tm, valid, s, e);
      && IsServing(t, r) && t.replicas[r].calls == s.replicas[r].calls + 1
      && t.replicas[r].answers == s.replicas[r].answers && valid(Latest(t))
    ensures var (t, k) := (Apply(tm, valid, s, e), |s.replicas[r].answers|);
      var end := Exec(tm, valid, s, [e, At(r, CallAnswered), At(r, Install(k))]);
      && end.Some? && WellFormed(end.value) && end.value.history == t.history && end.value.now == t.now
      && IsServing(end.value, r) && end.value.replicas[r].current == Query(t)
  {
    var (t, k) := (Apply(tm, valid, s, e), |s.replicas[r].answers|);
    var u := Apply(tm, valid, t, At(r, CallAnswered));
    assert u.replicas[r].answers[k] == Query(t);
    var w := Apply(tm, valid, u, At(r, Install(k)));
    OneEvent(tm, valid, u, At(r, Install(k)));
    var last: seq<Event<V>> := [At(r, CallAnswered), At(r, Install(k))];
    assert [e, At(r, CallAnswered), At(r, Install(k))][1..] == last && last[1..] == [At(r, Install(k))];
  }

  /**
   * A change that another replica announced can be served here at once, with no
   * tick in between; the echo of a replica's own announcement does nothing.
   */
  lemma SignalFreshens<V(!new)>(tm: Timing, valid: V -> bool, s: State<V>, r: nat, from: nat)
    requires WellFormed(s) && IsServing(s, r) && from in s.wire && valid(Latest(s))
    ensures from != r ==>
      var k := |s.replicas[r].answers|;
      var end := Exec(tm, valid, s, [At(r, Deliver(from)), At(r, CallAnswered), At(r, Install(k))]);
      && end.Some? && WellFormed(end.value) && IsServing(end.value, r) && end.value.now == s.now
      && end.value.replicas[r].current.value == Latest(s)
    ensures r in s.wire ==> Apply(tm, valid, s, At(r, Deliver(r))) == s
  {
    if from != r {
      ReloadFreshens(tm, valid, s, At(r, Deliver(from)), r);
    }
  }

  /** And so can a replica's own write. */
  lemma WriteFreshens<V(!new)>(tm: Timing, valid: V -> bool, s: State<V>, r: nat, v: V)
    requires WellFormed(s) && IsServing(s, r) && valid(v)
    ensures
      var end := Exec(tm, valid, s, [At(r, Write(v)), At(r, CallAnswered), At(r, Install(|s.replicas[r].answers|))]);
      && end.Some? && WellFormed(end.value) && IsServing(end.value, r) && end.value.now == s.now
      && end.value.replicas[r].current.value == Latest(end.value) == v
  {
    ReloadFreshens(tm, valid, s, At(r, Write(v)), r);
  }

  // ------------------------------------------- when a fresh mirror stays fresh

  /** No answer that could still be installed at r disagrees with the store. */
  ghost predicate NothingOutdated<V(!new)>(valid: V -> bool, s: State<V>, r: nat)
    requires WellFormed(s) && r < |s.replicas|
  {
    match s.replicas[r]
    case Stopped => true
    case Starting(_, first) => first.Some? && valid(first.value.value) ==> first.value.value == Latest(s)
    case Serving(_, ticker, _, answers, _, _, _) =>
      && (ticker.Answered? && valid(ticker.answer.value) ==> ticker.answer.value == Latest(s))
      && forall a | a in answers && valid(a.value) :: a.value == Latest(s)
  }

  ghost predicate Fresh<V>(s: State<V>, r: nat)
    requires WellFormed(s) && r < |s.replicas|
  {
    s.replicas[r].Serving? ==> s.replicas[r].current.value == Latest(s)
  }

  predicate IsWrite<V>(e: Event<V>) {
    e.At? && e.what.Write?
  }

  ghost predicate NoWrites<V>(run: seq<Event<V>>) {
    forall i | 0 <= i < |run| :: !IsWrite(run[i])
  }

  lemma {:induction false} ExecWellFormed<V(!new)>(tm: Timing, valid: V -> bool, s: State<V>, run: seq<Event<V>>)
    requires WellFormed(s) && Exec(tm, valid, s, run).Some?
    ensures WellFormed(Exec(tm, valid, s, run).value)
    ensures |Exec(tm, valid, s, run).value.replicas| == |s.replicas|
    decreases |run|
  {
    if run != [] {
      ExecWellFormed(tm, valid, Apply(tm, valid, s, run[0]), run[1..]);
    }
  }

  /** Every run without a further write leaves r's mirror equal to the store. */
  ghost predicate StaysFresh<V(!new)>(tm: Timing, valid: V -> bool, s: State<V>, r: nat)
    requires WellFormed(s) && r < |s.replicas|
  {
    forall run | NoWrites(run) && Exec(tm, valid, s, run).Some? ::
      var t := Exec(tm, valid, s, run).value;
      WellFormed(t) && r < |t.replicas| && Fresh(t, r)
  }

  lemma SettledStep<V(!new)>(tm: Timing, valid: V -> bool, s: State<V>, e: Event<V>, r: nat)
    requires WellFormed(s) && r < |s.replicas| && Fresh(s, r) && NothingOutdated(valid, s, r)
    requires Enabled(tm, valid, s, e) && !IsWrite(e)
    ensures var t := Apply(tm, valid, s, e); Fresh(t, r) && NothingOutdated(valid, t, r)
  {
    var t := Apply(tm, valid, s, e);
    if e.At? && e.who == r && (e.what.Install? || e.what.Reject?) {
      var pending := s.replicas[r].answers;
      forall a | a in Remove(pending, e.what.which) ensures a in pending {}
      assert pending[e.what.which] in pending;
    }
  }

  lemma {:induction false} SettledRun<V(!new)>(
    tm: Timing, valid: V -> bool, s: State<V>, run: seq<Event<V>>, r: nat)
    requires WellFormed(s) && r < |s.replicas| && Fresh(s, r) && NothingOutdated(valid, s, r)
    requires NoWrites(run) && Exec(tm, valid, s, run).Some?
    ensures var t := Exec(tm, valid, s, run).value; WellFormed(t) && r < |t.replicas| && Fresh(t, r)
    decreases |run|
  {
    if run != [] {
      assert !IsWrite(run[0]);
      SettledStep(tm, valid, s, run[0], r);
      SettledRun(tm, valid, Apply(tm, valid, s, run[0]), run[1..], r);
    }
  }

  /**
   * A mirror that holds the store's content keeps it through every run without
   * a write if and only if no outdated answer is still on its way in.  One more
   * successful reload is therefore not enough by itself.
   */
  lemma StaysFreshIff<V(!new)>(tm: Timing, valid: V -> bool, s: State<V>, r: nat)
    requires WellFormed(s) && IsServing(s, r) && Fresh(s, r)
    ensures StaysFresh(tm, valid, s, r) <==> NothingOutdated(valid, s, r)
  {
    if NothingOutdated(valid, s, r) {
      forall run | NoWrites(run) && Exec(tm, valid, s, run).Some?
        ensures var t := Exec(tm, valid, s, run).value; WellFormed(t) && r < |t.replicas| && Fresh(t, r)
      {
        SettledRun(tm, valid, s, run, r);
      }
    } else {
      var m := s.replicas[r];
      var e: Event<V>;
      if m.ticker.Answered? && valid(m.ticker.answer.value) && m.ticker.answer.value != Latest(s) {
        e := At(r, TickInstall(s.now));
      } else {
        var a :| a in m.answers && valid(a.value) && a.value != Latest(s);
        var k :| 0 <= k < |m.answers| && m.answers[k] == a;
        e := At(r, Install(k));
      }
      OneEvent(tm, valid, s, e);
      assert NoWrites([e]);
      assert !Fresh(Apply(tm, valid, s, e), r);
    }
  }

  lemma OneEvent<V(!new)>(tm: Timing, valid: V -> bool, s: State<V>, e: Event<V>)
    requires WellFormed(s) && Enabled(tm, valid, s, e)
    ensures Exec(tm, valid, s, [e]) == Some(Apply(tm, valid, s, e))
  {
    assert Exec(tm, valid, Apply(tm, valid, s, e), [e][1..]) == Some(Apply(tm, valid, s, e));
  }

  // -------------------------------------------------------------- time can pass

  /** What a replica must still do before time can pass it by. */
  ghost function Urgent<V>(r: Replica<V>, now: nat): nat {
    match r
    case Stopped => 0
    case Starting(_, _) => 1
    case Serving(_, ticker, _, answers, _, _, _) =>
      |answers| + match ticker case Idle(due) => (if due <= now then 2 else 0) case _ => 1
  }

  ghost function AllUrgent<V>(rs: seq<Replica<V>>, now: nat): nat {
    if rs == [] then 0 else Urgent(rs[0], now) + AllUrgent(rs[1..], now)
  }

  lemma {:induction false} LessUrgent<V>(rs: seq<Replica<V>>, now: nat, i: nat, r: Replica<V>)
    requires i < |rs| && Urgent(r, now) < Urgent(rs[i], now)
    ensures AllUrgent(rs[i := r], now) < AllUrgent(rs, now)
  {
    if i == 0 {
      assert rs[i := r][1..] == rs[1..];
    } else {
      assert rs[i := r][1..] == rs[1..][i - 1 := r];
      LessUrgent(rs[1..], now, i - 1, r);
    }
  }

  /** A replica that holds time up can do something about it at once. */
  lemma Unblocks<V(!new)>(tm: Timing, valid: V -> bool, s: State<V>, i: nat) returns (c: Change<V>)
    requires Inv(tm, valid, s) && tm.interval > 0 && i < |s.replicas| && !MayWait(tm, s.replicas[i], s.now + 1)
    ensures May(tm, valid, s, s.replicas[i], c) && !c.Write?
    ensures Urgent(Move(tm, valid, s, i, s.replicas[i], c), s.now) < Urgent(s.replicas[i], s.now)
  {
    var r := s.replicas[i];
    assert ReplicaOk(tm, valid, s, r);
    if r.Starting? {
      c := BootFailed;
    } else if r.answers != [] {
      c := if valid(r.answers[0].value) then Install(0) else Reject(0);
    } else if r.ticker.Idle? {
      c := TickCall;
    } else {
      c := TickFailed(s.now + tm.interval);
    }
  }

  /** No reachable state stops the clock, so nothing above holds only because time stands still. */
  lemma TimeCanPass<V(!new)>(tm: Timing, valid: V -> bool, s: State<V>) returns (run: seq<Event<V>>)
    requires Inv(tm, valid, s) && tm.interval > 0
    ensures NoWrites(run) && Exec(tm, valid, s, run).Some? && Exec(tm, valid, s, run).value.now == s.now + 1
    decreases AllUrgent(s.replicas, s.now)
  {
    if forall r | r in s.replicas :: MayWait(tm, r, s.now + 1) {
      run := [Advance(1)];
      OneEvent(tm, valid, s, Advance(1));
    } else {
      var r :| r in s.replicas && !MayWait(tm, r, s.now + 1);
      var i :| 0 <= i < |s.replicas| && s.replicas[i] == r;
      var c := Unblocks(tm, valid, s, i);
      ApplyKeepsInv(tm, valid, s, At(i, c));
      LessUrgent(s.replicas, s.now, i, Move(tm, valid, s, i, r, c));
      var rest := TimeCanPass(tm, valid, Apply(tm, valid, s, At(i, c)));
      run := [At(i, c)] + rest;
      assert run[1..] == rest;
    }
  }

  // ------------------------------------------------ an own write that is undone

  predicate AnyValue(v: int) {
    true
  }

  const TEN_FIVE := Timing(10, 5)

  /** A replica starts, a tick reads the row, and the replica's own PUT writes and reloads it. */
  function Overlap(): seq<Event<int>> {
    [At(0, Boot), At(0, BootAnswered), At(0, BootInstall(10))]
    + [Advance(10), At(0, TickCall), At(0, TickAnswered)]
    + [At(0, Write(1)), At(0, CallAnswered), At(0, Install(0))]
  }

  function Started(): State<int> {
    State(0, [0], [0], [Serving(Snapshot(0, 0, 0), Idle(10), 0, [], 0, 0, 0)], {})
  }

  function TickRead(): State<int> {
    State(10, [0], [0], [Serving(Snapshot(0, 0, 0), Answered(10, Snapshot(0, 0, 10)), 0, [], 0, 0, 0)], {})
  }

  /** The state the overlap leaves: the writer serves its own write, the tick's answer is older. */
  function AfterOverlap(): State<int> {
    State(10, [0, 1], [0, 10], [Serving(Snapshot(1, 1, 10), Answered(10, Snapshot(0, 0, 10)), 0, [], 0, 0, 0)], {})
  }

  lemma {:induction false} ExecAppend<V(!new)>(
    tm: Timing, valid: V -> bool, s: State<V>, a: seq<Event<V>>, b: seq<Event<V>>)
    requires WellFormed(s) && Exec(tm, valid, s, a).Some?
    ensures WellFormed(Exec(tm, valid, s, a).value)
    ensures Exec(tm, valid, s, a + b) == Exec(tm, valid, Exec(tm, valid, s, a).value, b)
    decreases |a|
  {
    if a == [] {
      assert a + b == b;
    } else {
      assert (a + b)[1..] == a[1..] + b;
      ExecAppend(tm, valid, Apply(tm, valid, s, a[0]), a[1..], b);
    }
  }

  ghost predicate Leads<V(!new)>(tm: Timing, valid: V -> bool, s: State<V>, e: Event<V>, t: State<V>) {
    WellFormed(s) && Enabled(tm, valid, s, e) && Apply(tm, valid, s, e) == t
  }

  lemma Three<V(!new)>(
    tm: Timing, valid: V -> bool, s: State<V>, e: Event<V>, t: State<V>, f: Event<V>, u: State<V>,
    g: Event<V>, w: State<V>)
    requires WellFormed(t) && WellFormed(u)
    requires Leads(tm, valid, s, e, t) && Leads(tm, valid, t, f, u) && Leads(tm, valid, u, g, w)
    ensures Exec(tm, valid, s, [e, f, g]) == Some(w)
  {
    OneEvent(tm, valid, u, g);
    assert [e, f, g][1..] == [f, g] && [f, g][1..] == [g];
  }

  lemma BootSegment()
    ensures Exec(TEN_FIVE, AnyValue, Initial(1, 0), [At(0, Boot), At(0, BootAnswered), At(0, BootInstall(10))])
         == Some(Started())
  {
    var s := Initial(1, 0);
    var t := s.(replicas := [Starting(0, None)]);
    var u := s.(replicas := [Starting(0, Some(Snapshot(0, 0, 0)))]);
    assert s == State(0, [0], [0], [Stopped], {});
    Three(TEN_FIVE, AnyValue, s, At(0, Boot), t, At(0, BootAnswered), u, At(0, BootInstall(10)), Started());
  }

  lemma TickSegment()
    ensures Exec(TEN_FIVE, AnyValue, Started(), [Advance(10), At(0, TickCall), At(0, TickAnswered)])
         == Some(TickRead())
  {
    var t := Started().(now := 10);
    var u := t.(replicas := [Serving(Snapshot(0, 0, 0), Calling(10), 0, [], 0, 0, 0)]);
    Three(TEN_FIVE, AnyValue, Started(), Advance(10), t, At(0, TickCall), u, At(0, TickAnswered), TickRead());
  }

  lemma WriteSegment()
    ensures Exec(TEN_FIVE, AnyValue, TickRead(), [At(0, Write(1)), At(0, CallAnswered), At(0, Install(0))])
         == Some(AfterOverlap())
  {
    var r := TickRead().replicas[0];
    var t := State(10, [0, 1], [0, 10], [r.(calls := 1)], {});
    var u := t.(replicas := [r.(answers := [Snapshot(1, 1, 10)])]);
    assert TickRead().replicas[0 := r.(calls := 1)] == t.replicas;
    assert t.replicas[0 := r.(answers := [Snapshot(1, 1, 10)])] == u.replicas;
    assert r.answers + [Query(t)] == [Snapshot(1, 1, 10)];
    assert Remove([Snapshot(1, 1, 10)], 0) == [];
    assert u.replicas[0 := AfterOverlap().replicas[0]] == AfterOverlap().replicas;
    Three(TEN_FIVE, AnyValue, TickRead(), At(0, Write(1)), t, At(0, CallAnswered), u, At(0, Install(0)), AfterOverlap());
  }

  lemma OverlapReaches()
    ensures Exec(TEN_FIVE, AnyValue, Initial(1, 0), Overlap()) == Some(AfterOverlap())
  {
    var a, b := [At(0, Boot), At(0, BootAnswered), At(0, BootInstall(10))],
                [Advance(10), At(0, TickCall), At(0, TickAnswered)];
    BootSegment();
    TickSegment();
    WriteSegment();
    ExecAppend(TEN_FIVE, AnyValue, Initial(1, 0), a, b);
    ExecAppend(TEN_FIVE, AnyValue, Initial(1, 0), a + b, [At(0, Write(1)), At(0, CallAnswered), At(0, Install(0))]);
  }

  /**
   * "The writer applied it before answering" does not last: a tick that read
   * the row before the write may still land after it, and the replica that
   * wrote serves the old value again until its next reload.
   */
  lemma OwnWriteCanBeUndone()
    ensures var s := AfterOverlap();
      && Exec(TEN_FIVE, AnyValue, Initial(1, 0), Overlap()) == Some(s)
      && s.replicas[0].current.value == Latest(s) == 1
    ensures var after := Exec(TEN_FIVE, AnyValue, Initial(1, 0), Overlap() + [At(0, TickInstall(20))]);
      && after.Some? && WellFormed(after.value) && IsServing(after.value, 0)
      && after.value.replicas[0].current.value == 0 && Latest(after.value) == 1
  {
    OverlapReaches();
    ExecAppend(TEN_FIVE, AnyValue, Initial(1, 0), Overlap(), [At(0, TickInstall(20))]);
    OneEvent(TEN_FIVE, AnyValue, AfterOverlap(), At(0, TickInstall(20)));
  }

  // ---------------------------------------------------- the bound is reached

  function SlowRun(tm: Timing): seq<Event<int>> {
    [At(0, Boot), At(0, BootAnswered), Advance(tm.timeout)]
    + [At(0, BootInstall(tm.timeout + tm.interval)), Advance(tm.interval), At(0, TickCall)]
    + [Advance(tm.timeout)]
  }

  function Slowest(tm: Timing, now: nat, k: Ticker<int>): State<int> {
    State(now, [0], [0], [Serving(Snapshot(0, 0, 0), k, 0, [], tm.timeout, tm.timeout, 0)], {})
  }

  lemma SlowStart(tm: Timing)
    ensures Exec(tm, AnyValue, Initial(1, 0), [At(0, Boot), At(0, BootAnswered), Advance(tm.timeout)])
         == Some(State(tm.timeout, [0], [0], [Starting(0, Some(Snapshot(0, 0, 0)))], {}))
  {
    var s := Initial(1, 0);
    var t := s.(replicas := [Starting(0, None)]);
    var u := s.(replicas := [Starting(0, Some(Snapshot(0, 0, 0)))]);
    assert s == State(0, [0], [0], [Stopped], {});
    Three(tm, AnyValue, s, At(0, Boot), t, At(0, BootAnswered), u, Advance(tm.timeout), u.(now := tm.timeout));
  }

  lemma SlowTick(tm: Timing)
    ensures var (i, q) := (tm.interval, tm.timeout);
      Exec(tm, AnyValue, State(q, [0], [0], [Starting(0, Some(Snapshot(0, 0, 0)))], {}),
           [At(0, BootInstall(q + i)), Advance(i), At(0, TickCall)])
         == Some(Slowest(tm, q + i, Calling(q + i)))
  {
    var (i, q) := (tm.interval, tm.timeout);
    var s: State<int> := State(q, [0], [0], [Starting(0, Some(Snapshot(0, 0, 0)))], {});
    var t, u, w := Slowest(tm, q, Idle(q + i)), Slowest(tm, q + i, Idle(q + i)), Slowest(tm, q + i, Calling(q + i));
    assert s.replicas[0 := t.replicas[0]] == t.replicas;
    assert u.replicas[0 := w.replicas[0]] == w.replicas;
    Three(tm, AnyValue, s, At(0, BootInstall(q + i)), t, Advance(i), u, At(0, TickCall), w);
  }

  /**
   * For every interval and timeout some run makes a mirror exactly `Bound` old
   * with no reload failing and no message lost: the interval by itself is not
   * the worst case, and no smaller bound holds.
   */
  lemma BoundIsReached(tm: Timing)
    ensures var s := Exec(tm, AnyValue, Initial(1, 0), SlowRun(tm));
      && s.Some? && WellFormed(s.value) && IsServing(s.value, 0) && s.value.replicas[0].failures == 0
      && s.value.now == s.value.replicas[0].current.at + Bound(tm, 0)
  {
    var (i, q) := (tm.interval, tm.timeout);
    var a, b := [At(0, Boot), At(0, BootAnswered), Advance(q)], [At(0, BootInstall(q + i)), Advance(i), At(0, TickCall)];
    SlowStart(tm);
    SlowTick(tm);
    ExecAppend(tm, AnyValue, Initial(1, 0), a, b);
    ExecAppend(tm, AnyValue, Initial(1, 0), a + b, [Advance(q)]);
    OneEvent(tm, AnyValue, Slowest(tm, q + i, Calling(q + i)), Advance(q));
  }
}
