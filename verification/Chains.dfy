/** The chains the composition root builds, and what is charged, refused and reached through them. */
module Chains {
  import opened Wrappers
  import opened Middleware

  // ------------------------------------------------------------------- wiring

  /** Whether rules are enforced, CORS is enabled, and the denylist of access tokens is kept. */
  datatype Wiring = Wiring(rules: bool, cors: bool, denylist: bool)

  /** rateLimitMiddleware under its exemptions, or nothing when rules are off. */
  function LimiterOrNil(c: Wiring, stage: RateStage): Option<Stage> {
    if c.rules then Some(Limit(stage)) else None
  }

  function AppendRateLimit(chain: seq<Stage>, mdw: Option<Stage>): seq<Stage> {
    if mdw.None? then chain else chain + [mdw.value]
  }

  function Observability(): seq<Stage> {
    [Transport, Transport, Transport, Transport, Transport, Transport, Transport, Transport]
  }

  function Common(c: Wiring): seq<Stage> {
    AppendRateLimit(Observability() + [MaxBody, RequireJSONBody], LimiterOrNil(c, PreAuth))
      + if c.cors then [Cors] else []
  }

  /** The slice of common middlewares as initHTTPServer grows it. */
  method CommonChain(c: Wiring) returns (mdws: seq<Stage>)
    ensures mdws == Common(c)
  {
    mdws := Observability() + [MaxBody, RequireJSONBody];
    var limiter := LimiterOrNil(c, PreAuth);
    if limiter.Some? {
      mdws := mdws + [limiter.value];
    }
    if c.cors {
      mdws := mdws + [Cors];
    }
  }

  function Gates(c: Wiring, route: Route): seq<Stage> {
    match route
    case Open => []
    case WithAccess => [CheckToken(Access, c.denylist), RequireActiveAccount, CheckAuthz, RequireProjectMembership]
    case WithLogout => [CheckToken(Access, false), CheckAuthz]
    case WithMe => [CheckToken(Access, c.denylist), RequireActiveAccount, CheckAuthz]
    case WithRefresh => [CheckToken(Refresh, false), CheckAuthz]
    case WithReset => [CheckToken(PasswordReset, false), CheckAuthz]
    case WithVerification => [CheckToken(Verification, false)]
  }

  /** The chains that end in the post-auth limiter. */
  predicate Metered(route: Route) {
    route == WithAccess || route == WithLogout || route == WithMe || route == WithRefresh
  }

  function RouteChain(c: Wiring, route: Route): seq<Stage> {
    if Metered(route) then AppendRateLimit(Gates(c, route), LimiterOrNil(c, PostAuth)) else Gates(c, route)
  }

  /** The handler behind every chain. */
  function Handle<S>(r: Request, w: World<S>): (Outcome, World<S>) {
    (Reached(r), w)
  }

  /** The mux inside the common chain: it sets the project of the path and picks the route's chain. */
  function Mux<S>(env: Env, limit: Limiter<S>, c: Wiring, r: Request, w: World<S>): (Outcome, World<S>) {
    match env.route(r)
    case None => (Unrouted, w)
    case Some((route, project)) => Serve(env, limit, RouteChain(c, route), Handle, r.(project := project), w)
  }

  function ServeAPI<S>(env: Env, limit: Limiter<S>, c: Wiring, r: Request, w: World<S>): (Outcome, World<S>) {
    Serve(env, limit, Common(c), (q: Request, v: World<S>) => Mux(env, limit, c, q, v), r, w)
  }

  // ---------------------------------------------------------- gates, one by one

  type Gating = (Stage, Request) -> Decision

  function GateOf(env: Env): Gating {
    (stage: Stage, r: Request) => Gate(env, stage, r)
  }

  /** What a list of gates decides: the first refusal, or the request with what they added. */
  function Decide(gate: Gating, stages: seq<Stage>, r: Request): Decision {
    if stages == [] then Pass(r)
    else
      match gate(stages[0], r)
      case Pass(passed) => Decide(gate, stages[1..], passed)
      case Stop(outcome) => Stop(outcome)
  }

  predicate NoLimit(stages: seq<Stage>) {
    forall s | s in stages :: !s.Limit?
  }

  /** Gates ahead of the rest of a chain touch neither the limiter nor the charges. */
  lemma {:induction false} GatesFirst<S>(
    env: Env, limit: Limiter<S>, gates: seq<Stage>, rest: seq<Stage>, inner: Handler<S>, r: Request, w: World<S>)
    requires NoLimit(gates)
    ensures Serve(env, limit, gates + rest, inner, r, w) ==
      match Decide(GateOf(env), gates, r)
      case Pass(passed) => Serve(env, limit, rest, inner, passed, w)
      case Stop(outcome) => (outcome, w)
  {
    if gates == [] {
      assert gates + rest == rest;
    } else {
      assert (gates + rest)[1..] == gates[1..] + rest && (gates + rest)[0] == gates[0];
      assert gates[0] in gates;
      if Gate(env, gates[0], r).Pass? {
        GatesFirst(env, limit, gates[1..], rest, inner, Gate(env, gates[0], r).request, w);
      }
    }
  }

  /** No gate touches what an exemption looks at, nor the method. */
  lemma {:induction false} GatesKeep(env: Env, stages: seq<Stage>, r: Request)
    ensures Decide(GateOf(env), stages, r).Pass? ==>
      var p := Decide(GateOf(env), stages, r).request; p.(claims := r.claims) == r
  {
    if stages != [] && Gate(env, stages[0], r).Pass? {
      OneGateKeeps(env, stages[0], r);
      GatesKeep(env, stages[1..], Gate(env, stages[0], r).request);
    }
  }

  lemma OneGateKeeps(env: Env, stage: Stage, r: Request)
    ensures Gate(env, stage, r).Pass? ==> Gate(env, stage, r).request.(claims := r.claims) == r
  {
  }

  // --------------------------------------------------------- the whole request

  /** One limiter stage as a request meets it: skipped when rules are off or the request is exempt. */
  function Meter<S>(
    env: Env, limit: Limiter<S>, c: Wiring, stage: RateStage, r: Request, w: World<S>): (Option<int>, World<S>)
  {
    if !c.rules || Exempt(env, r) then (None, w)
    else
      var (refusal, after) := limit(stage, r, w.limiter);
      (refusal, World(after, w.charges + [Charge(stage, refusal.None?)]))
  }

  /** What happens past the common chain: the route's gates, then its limiter, then the handler. */
  function ExpectedRoute<S>(
    env: Env, limit: Limiter<S>, c: Wiring, route: Route, r: Request, w: World<S>): (Outcome, World<S>)
  {
    match Decide(GateOf(env), Gates(c, route), r)
    case Stop(outcome) => (outcome, w)
    case Pass(p) =>
      if !Metered(route) then (Reached(p), w)
      else
        var (refusal, after) := Meter(env, limit, c, PostAuth, p, w);
        (if refusal.Some? then Refused(refusal.value, false) else Reached(p), after)
  }

  predicate TooLarge(env: Env, r: Request) {
    r.length > env.bodyLimit(r)
  }

  predicate WrongType(r: Request) {
    HasBody(r) && !r.json
  }

  predicate IsPreflight(c: Wiring, r: Request) {
    c.cors && r.verb == "OPTIONS"
  }

  /** The order the server promises, written out: body, pre-auth limiter, preflight, route. */
  function Expected<S>(env: Env, limit: Limiter<S>, c: Wiring, r: Request, w: World<S>): (Outcome, World<S>) {
    if TooLarge(env, r) then (Refused(413, false), w)
    else if WrongType(r) then (Refused(415, false), w)
    else
      var (refusal, after) := Meter(env, limit, c, PreAuth, r, w);
      if refusal.Some? then (Refused(refusal.value, false), after)
      else if IsPreflight(c, r) then (Preflight, after)
      else
        match env.route(r)
        case None => (Unrouted, after)
        case Some((route, project)) => ExpectedRoute(env, limit, c, route, r.(project := project), after)
  }

  lemma OneLimit<S>(
    env: Env, limit: Limiter<S>, stage: RateStage, rest: seq<Stage>, inner: Handler<S>, r: Request, w: World<S>)
    ensures Serve(env, limit, [Limit(stage)] + rest, inner, r, w) ==
      var (refusal, after) := Meter(env, limit, Wiring(true, false, false), stage, r, w);
      if refusal.Some? then (Refused(refusal.value, false), after) else Serve(env, limit, rest, inner, r, after)
  {
    assert ([Limit(stage)] + rest)[1..] == rest;
  }

  lemma RouteChainServes<S>(env: Env, limit: Limiter<S>, c: Wiring, route: Route, r: Request, w: World<S>)
    ensures Serve(env, limit, RouteChain(c, route), Handle, r, w) == ExpectedRoute(env, limit, c, route, r, w)
  {
    var gates := Gates(c, route);
    var rest := if Metered(route) && c.rules then [Limit(PostAuth)] else [];
    assert RouteChain(c, route) == gates + rest;
    GatesFirst(env, limit, gates, rest, Handle, r, w);
    if Decide(GateOf(env), gates, r).Pass? && rest != [] {
      assert rest == [Limit(PostAuth)] + [];
      OneLimit(env, limit, PostAuth, [], Handle, Decide(GateOf(env), gates, r).request, w);
    }
  }

  lemma {:induction false} TransportPasses(env: Env, stages: seq<Stage>, rest: seq<Stage>, r: Request)
    requires forall i | 0 <= i < |stages| :: stages[i] == Transport
    ensures Decide(GateOf(env), stages + rest, r) == Decide(GateOf(env), rest, r)
  {
    if stages == [] {
      assert stages + rest == rest;
    } else {
      assert (stages + rest)[0] == Transport && (stages + rest)[1..] == stages[1..] + rest;
      TransportPasses(env, stages[1..], rest, r);
    }
  }

  lemma BodyGates(env: Env, r: Request)
    ensures NoLimit(Observability() + [MaxBody, RequireJSONBody])
    ensures Decide(GateOf(env), Observability() + [MaxBody, RequireJSONBody], r) ==
      if TooLarge(env, r) then Stop(Refused(413, false))
      else if WrongType(r) then Stop(Refused(415, false))
      else Pass(r)
  {
    var (body, json) := ([MaxBody, RequireJSONBody], [RequireJSONBody]);
    TransportPasses(env, Observability(), body, r);
    assert body[1..] == json && json[1..] == [];
    assert Decide(GateOf(env), json, r) == if WrongType(r) then Stop(Refused(415, false)) else Pass(r);
    assert Decide(GateOf(env), body, r) ==
      if TooLarge(env, r) then Stop(Refused(413, false)) else Decide(GateOf(env), json, r);
  }

  lemma CorsServes<S>(env: Env, limit: Limiter<S>, c: Wiring, inner: Handler<S>, r: Request, w: World<S>)
    ensures Serve(env, limit, if c.cors then [Cors] else [], inner, r, w) ==
      if IsPreflight(c, r) then (Preflight, w) else inner(r, w)
  {
    assert [Cors][1..] == [];
  }

  /** For every request, wiring, limiter and state, the chains do what the order promises. */
  lemma ServeAPIIsExpected<S>(env: Env, limit: Limiter<S>, c: Wiring, r: Request, w: World<S>)
    ensures ServeAPI(env, limit, c, r, w) == Expected(env, limit, c, r, w)
  {
    var body := Observability() + [MaxBody, RequireJSONBody];
    var cors := if c.cors then [Cors] else [];
    var rest := if c.rules then [Limit(PreAuth)] + cors else cors;
    var mux := (q: Request, v: World<S>) => Mux(env, limit, c, q, v);
    assert Common(c) == body + rest;
    BodyGates(env, r);
    GatesFirst(env, limit, body, rest, mux, r, w);
    OneLimit(env, limit, PreAuth, cors, mux, r, w);
    var (_, after) := Meter(env, limit, c, PreAuth, r, w);
    CorsServes(env, limit, c, mux, r, after);
    CorsServes(env, limit, c, mux, r, w);
    if env.route(r).Some? {
      var (route, project) := env.route(r).value;
      RouteChainServes(env, limit, c, route, r.(project := project), after);
    }
  }

  // ------------------------------------------------------------ as it is built

  lemma {:induction false} ServeSame<S(!new)>(
    env: Env, limit: Limiter<S>, stages: seq<Stage>, a: Handler<S>, b: Handler<S>, r: Request, w: World<S>)
    requires forall q: Request, v: World<S> :: a(q, v) == b(q, v)
    ensures Serve(env, limit, stages, a, r, w) == Serve(env, limit, stages, b, r, w)
  {
    if stages != [] {
      if stages[0].Limit? {
        var after := limit(stages[0].stage, r, w.limiter).1;
        ServeSame(env, limit, stages[1..], a, b, r, w);
        ServeSame(env, limit, stages[1..], a, b, r, World(after, w.charges + [Charge(stages[0].stage, true)]));
      } else if Gate(env, stages[0], r).Pass? {
        ServeSame(env, limit, stages[1..], a, b, Gate(env, stages[0], r).request, w);
      }
    }
  }

  /** One of the chains a handler registers its routes behind. */
  method RouteHandler<S(!new)>(env: Env, limit: Limiter<S>, c: Wiring, route: Route) returns (h: Handler<S>)
    ensures forall r: Request, w: World<S> :: h(r, w) == Serve(env, limit, RouteChain(c, route), Handle, r, w)
  {
    var stages := RouteChain(c, route);
    h := Chain(Mdws(env, limit, stages), Handle);
    forall r: Request, w: World<S> ensures h(r, w) == Serve(env, limit, stages, Handle, r, w) {
      ChainServes(env, limit, stages, Handle, r, w);
    }
  }

  /**
   * The handler the server is given: every route behind its chain, the mux over
   * them, and the common chain around it, built of closures and serving every
   * request in the order written out.
   */
  method InitHTTPServer<S(!new)>(env: Env, limit: Limiter<S>, c: Wiring) returns (api: Handler<S>)
    ensures forall r: Request, w: World<S> :: api(r, w) == Expected(env, limit, c, r, w)
  {
    var mdws := CommonChain(c);
    var open := RouteHandler(env, limit, c, Open);
    var access := RouteHandler(env, limit, c, WithAccess);
    var logout := RouteHandler(env, limit, c, WithLogout);
    var me := RouteHandler(env, limit, c, WithMe);
    var refresh := RouteHandler(env, limit, c, WithRefresh);
    var reset := RouteHandler(env, limit, c, WithReset);
    var verify := RouteHandler(env, limit, c, WithVerification);
    var handlers: Route -> Handler<S> := (route: Route) =>
      match route
      case Open => open
      case WithAccess => access
      case WithLogout => logout
      case WithMe => me
      case WithRefresh => refresh
      case WithReset => reset
      case WithVerification => verify;
    var mux := Dispatch(env, handlers);
    api := Chain(Mdws(env, limit, mdws), mux);
    Dispatches(env, limit, c, handlers);
    forall r: Request, w: World<S> ensures api(r, w) == Expected(env, limit, c, r, w) {
      AsExpected(env, limit, c, mux, r, w);
    }
  }

  /** The router over the handlers registered. */
  function Dispatch<S>(env: Env, handlers: Route -> Handler<S>): Handler<S> {
    (r: Request, w: World<S>) =>
      match env.route(r)
      case None => (Unrouted, w)
      case Some((route, project)) => handlers(route)(r.(project := project), w)
  }

  lemma Dispatches<S(!new)>(env: Env, limit: Limiter<S>, c: Wiring, handlers: Route -> Handler<S>)
    requires forall route: Route, r: Request, w: World<S> ::
      handlers(route)(r, w) == Serve(env, limit, RouteChain(c, route), Handle, r, w)
    ensures forall r: Request, w: World<S> :: Dispatch(env, handlers)(r, w) == Mux(env, limit, c, r, w)
  {
  }

  lemma AsExpected<S(!new)>(env: Env, limit: Limiter<S>, c: Wiring, mux: Handler<S>, r: Request, w: World<S>)
    requires forall q: Request, v: World<S> :: mux(q, v) == Mux(env, limit, c, q, v)
    ensures Wrapped(Mdws(env, limit, Common(c)), mux)(r, w) == Expected(env, limit, c, r, w)
  {
    ChainServes(env, limit, Common(c), mux, r, w);
    ServeSame(env, limit, Common(c), mux, (q: Request, v: World<S>) => Mux(env, limit, c, q, v), r, w);
    ServeAPIIsExpected(env, limit, c, r, w);
  }

  // ------------------------------------------------------------------ charging

  /** An exempt request leaves both stages untouched and is answered as if rules were off. */
  lemma ExemptIsUncharged<S>(env: Env, limit: Limiter<S>, c: Wiring, r: Request, w: World<S>)
    requires (exists p | p in env.bypass :: p <= r.path) || env.excluded(r.address)
    ensures ServeAPI(env, limit, c, r, w) == ServeAPI(env, limit, c.(rules := false), r, w)
    ensures ServeAPI(env, limit, c, r, w).1 == w
  {
    ServeAPIIsExpected(env, limit, c, r, w);
    ServeAPIIsExpected(env, limit, c.(rules := false), r, w);
    if env.route(r).Some? {
      var (route, project) := env.route(r).value;
      GatesKeep(env, Gates(c, route), r.(project := project));
    }
  }

  /** Whether a request's own gates let it to the end of its route's chain. */
  predicate GatesPass(env: Env, c: Wiring, r: Request) {
    && env.route(r).Some?
    && Decide(GateOf(env), Gates(c, env.route(r).value.0), r.(project := env.route(r).value.1)).Pass?
  }

  /**
   * Exactly what one request is charged: nothing when rules are off, it is exempt
   * or its body is refused; else the pre-auth stage, before CORS can answer; and
   * the post-auth stage exactly when that admitted it and every gate of a metered
   * route passed it.
   */
  lemma ChargedIff<S>(env: Env, limit: Limiter<S>, c: Wiring, r: Request, w: World<S>)
    ensures var (outcome, after) := ServeAPI(env, limit, c, r, w);
      && w.charges <= after.charges
      && var added := after.charges[|w.charges|..];
        && |added| <= 2
        && (added == [] <==>
              || !c.rules || (exists p | p in env.bypass :: p <= r.path) || env.excluded(r.address)
              || r.length > env.bodyLimit(r) || ((r.length > 0 || (r.length == -1 && r.chunked)) && !r.json))
        && (|added| > 0 ==> added[0].stage == PreAuth)
        && (outcome == Preflight && added != [] ==> added == [Charge(PreAuth, true)])
        && (|added| > 1 ==> added[1].stage == PostAuth)
        && (|added| > 1 <==>
              && |added| > 0 && added[0].admitted && !(c.cors && r.verb == "OPTIONS")
              && GatesPass(env, c, r) && env.route(r).value.0 !in {Open, WithReset, WithVerification})
        && (|added| > 0 && !added[|added| - 1].admitted ==> outcome.Refused?)
  {
    ServeAPIIsExpected(env, limit, c, r, w);
    var (refusal, after) := Meter(env, limit, c, PreAuth, r, w);
    var free := !c.rules || Exempt(env, r);
    var pre := if free then [] else [Charge(PreAuth, refusal.None?)];
    assert after.charges == w.charges + pre by { MeterCharges(env, limit, c, PreAuth, r, w); }
    if !TooLarge(env, r) && !WrongType(r) {
      if refusal.None? && !IsPreflight(c, r) && GatesPass(env, c, r) && Metered(env.route(r).value.0) {
        var (route, project) := env.route(r).value;
        var p := Decide(GateOf(env), Gates(c, route), r.(project := project)).request;
        GatesKeep(env, Gates(c, route), r.(project := project));
        var (second, final) := Meter(env, limit, c, PostAuth, p, after);
        var post := if free then [] else [Charge(PostAuth, second.None?)];
        assert final.charges == after.charges + post by { MeterCharges(env, limit, c, PostAuth, p, after); }
        assert (w.charges + pre + post)[|w.charges|..] == pre + post;
      } else {
        assert ServeAPI(env, limit, c, r, w).1 == after;
        assert (w.charges + pre)[|w.charges|..] == pre;
      }
    }
  }

  lemma MeterCharges<S>(env: Env, limit: Limiter<S>, c: Wiring, stage: RateStage, r: Request, w: World<S>)
    ensures var (refusal, after) := Meter(env, limit, c, stage, r, w);
      after.charges == w.charges + if !c.rules || Exempt(env, r) then [] else [Charge(stage, refusal.None?)]
  {
  }

  function Count(charges: seq<Charge>, stage: RateStage): nat {
    if charges == [] then 0
    else Count(charges[..|charges| - 1], stage) + if charges[|charges| - 1] == Charge(stage, true) then 1 else 0
  }

  /** Charges of a stage, admitted or not. */
  function Entries(charges: seq<Charge>, stage: RateStage): nat {
    if charges == [] then 0
    else Entries(charges[..|charges| - 1], stage) + if charges[|charges| - 1].stage == stage then 1 else 0
  }

  lemma {:induction false} CountsAppended(a: seq<Charge>, b: seq<Charge>, stage: RateStage)
    ensures Count(a + b, stage) == Count(a, stage) + Count(b, stage)
    ensures Entries(a + b, stage) == Entries(a, stage) + Entries(b, stage)
    decreases |b|
  {
    if b == [] {
      assert a + b == a;
    } else {
      assert (a + b)[..|a + b| - 1] == a + b[..|b| - 1];
      CountsAppended(a, b[..|b| - 1], stage);
    }
  }

  /** Requests served one after another; the services may answer each differently. */
  function ServeAll<S>(limit: Limiter<S>, c: Wiring, calls: seq<(Env, Request)>, w: World<S>): World<S>
    decreases |calls|
  {
    if calls == [] then w
    else ServeAll(limit, c, calls[1..], ServeAPI(calls[0].0, limit, c, calls[0].1, w).1)
  }

  lemma OneRequestCounts<S>(env: Env, limit: Limiter<S>, c: Wiring, r: Request, w: World<S>)
    ensures var after := ServeAPI(env, limit, c, r, w).1;
      && Entries(after.charges, PostAuth) - Entries(w.charges, PostAuth)
           <= Count(after.charges, PreAuth) - Count(w.charges, PreAuth)
      && Entries(after.charges, PreAuth) <= Entries(w.charges, PreAuth) + 1
  {
    ChargedIff(env, limit, c, r, w);
    var after := ServeAPI(env, limit, c, r, w).1;
    var added := after.charges[|w.charges|..];
    assert after.charges == w.charges + added;
    CountsAppended(w.charges, added, PostAuth);
    CountsAppended(w.charges, added, PreAuth);
    FewCounted(added);
  }

  lemma FewCounted(added: seq<Charge>)
    requires |added| <= 2
    requires |added| > 0 ==> added[0].stage == PreAuth
    requires |added| > 1 ==> added[0].admitted && added[1].stage == PostAuth
    ensures Entries(added, PostAuth) <= Count(added, PreAuth) && Entries(added, PreAuth) <= 1
  {
    if |added| == 1 {
      assert added[..0] == [];
    } else if |added| == 2 {
      assert added[..1][..0] == [] && added[..1][0] == added[0];
    }
  }

  /**
   * Over any sequence of requests, from any limiter state, the post-auth stage is
   * never entered more often than the pre-auth stage admitted, nor that entered
   * more than once a request.
   */
  lemma {:induction false} ChargesAreBounded<S>(limit: Limiter<S>, c: Wiring, calls: seq<(Env, Request)>, w: World<S>)
    ensures var after := ServeAll(limit, c, calls, w);
      && Entries(after.charges, PostAuth) - Entries(w.charges, PostAuth)
           <= Count(after.charges, PreAuth) - Count(w.charges, PreAuth)
      && Entries(after.charges, PreAuth) <= Entries(w.charges, PreAuth) + |calls|
    decreases |calls|
  {
    if calls != [] {
      OneRequestCounts(calls[0].0, limit, c, calls[0].1, w);
      ChargesAreBounded(limit, c, calls[1..], ServeAPI(calls[0].0, limit, c, calls[0].1, w).1);
    }
  }

  // -------------------------------------------------------------- equivalences

  function Strip(stages: seq<Stage>): seq<Stage> {
    if stages == [] then []
    else (if stages[0].Limit? then [] else [stages[0]]) + Strip(stages[1..])
  }

  lemma {:induction false} StripAppended(a: seq<Stage>, b: seq<Stage>)
    ensures Strip(a + b) == Strip(a) + Strip(b)
  {
    if a == [] {
      assert a + b == b;
    } else {
      assert (a + b)[1..] == a[1..] + b;
      StripAppended(a[1..], b);
    }
  }

  lemma {:induction false} StripNothing(stages: seq<Stage>)
    requires NoLimit(stages)
    ensures Strip(stages) == stages
  {
    if stages != [] {
      assert stages[0] in stages;
      StripNothing(stages[1..]);
      assert stages == [stages[0]] + stages[1..];
    }
  }

  lemma StripLimit(stages: seq<Stage>, limit: Option<Stage>)
    requires NoLimit(stages) && (limit.Some? ==> limit.value.Limit?)
    ensures Strip(AppendRateLimit(stages, limit)) == stages
  {
    StripNothing(stages);
    if limit.Some? {
      StripAppended(stages, [limit.value]);
      assert Strip([limit.value]) == [];
      assert stages + [] == stages;
    }
  }

  lemma GatesAreNoLimit(c: Wiring, route: Route)
    ensures NoLimit(Gates(c, route))
  {
  }

  /** With rules off every chain is itself with both limiter stages taken out. */
  lemma RulesOffIsStripped(c: Wiring, route: Route)
    ensures Common(c.(rules := false)) == Strip(Common(c))
    ensures RouteChain(c.(rules := false), route) == Strip(RouteChain(c, route))
  {
    CommonStripped(c, Observability() + [MaxBody, RequireJSONBody], if c.cors then [Cors] else []);
    GatesAreNoLimit(c, route);
    StripLimit(Gates(c, route), LimiterOrNil(c, PostAuth));
    StripNothing(Gates(c, route));
  }

  lemma CommonStripped(c: Wiring, body: seq<Stage>, cors: seq<Stage>)
    requires NoLimit(body) && NoLimit(cors)
    ensures Strip(AppendRateLimit(body, LimiterOrNil(c, PreAuth)) + cors) == body + cors
  {
    StripAppended(AppendRateLimit(body, LimiterOrNil(c, PreAuth)), cors);
    StripLimit(body, LimiterOrNil(c, PreAuth));
    StripNothing(cors);
  }

  lemma RulesOffIsUncharged<S>(env: Env, limit: Limiter<S>, c: Wiring, r: Request, w: World<S>)
    requires !c.rules
    ensures ServeAPI(env, limit, c, r, w).1 == w
  {
    ServeAPIIsExpected(env, limit, c, r, w);
  }

  /** One more gate, when the ones before it let the request through. */
  function Then(gate: Gating, d: Decision, stage: Stage): Decision {
    match d
    case Pass(p) => gate(stage, p)
    case Stop(o) => Stop(o)
  }

  lemma {:induction false} DecideThen(gate: Gating, gates: seq<Stage>, stage: Stage, r: Request)
    ensures Decide(gate, gates + [stage], r) == Then(gate, Decide(gate, gates, r), stage)
  {
    if gates == [] {
      assert gates + [stage] == [stage] && [stage][1..] == [];
    } else {
      assert (gates + [stage])[0] == gates[0] && (gates + [stage])[1..] == gates[1..] + [stage];
      if gate(gates[0], r).Pass? {
        DecideThen(gate, gates[1..], stage, gate(gates[0], r).request);
      }
    }
  }

  /** The access chain's gates are the /me chain's and then membership. */
  lemma AccessIsMeThenMembership(gate: Gating, c: Wiring, r: Request)
    ensures Decide(gate, Gates(c, WithAccess), r)
         == Then(gate, Decide(gate, Gates(c, WithMe), r), RequireProjectMembership)
  {
    assert Gates(c, WithAccess) == Gates(c, WithMe) + [RequireProjectMembership];
    DecideThen(gate, Gates(c, WithMe), RequireProjectMembership, r);
  }

  /** The two chains treat a request alike, from whatever state, exactly when membership does not refuse it. */
  lemma MeIsAccessIff<S>(env: Env, limit: Limiter<S>, c: Wiring, r: Request, w: World<S>)
    ensures var me := Decide(GateOf(env), Gates(c, WithMe), r);
      Serve(env, limit, RouteChain(c, WithAccess), Handle, r, w)
        == Serve(env, limit, RouteChain(c, WithMe), Handle, r, w)
      <==> (me.Pass? ==> MembershipDecision(env, me.request).Pass?)
  {
    RouteChainServes(env, limit, c, WithAccess, r, w);
    RouteChainServes(env, limit, c, WithMe, r, w);
    AccessIsMeThenMembership(GateOf(env), c, r);
    if Decide(GateOf(env), Gates(c, WithMe), r).Pass? {
      MeterCharges(env, limit, c, PostAuth, Decide(GateOf(env), Gates(c, WithMe), r).request, w);
    }
  }

  /** Without a project id, or with one that is not an id, the chains are the same. */
  lemma NoProjectIsMe<S>(env: Env, limit: Limiter<S>, c: Wiring, r: Request, w: World<S>)
    requires r.project == "" || env.parse(r.project).None?
    ensures Serve(env, limit, RouteChain(c, WithAccess), Handle, r, w)
         == Serve(env, limit, RouteChain(c, WithMe), Handle, r, w)
  {
    MeIsAccessIff(env, limit, c, r, w);
    GatesKeep(env, Gates(c, WithMe), r);
  }

  lemma LogoutDecides(gate: Gating, c: Wiring, r: Request)
    ensures Decide(gate, Gates(c, WithLogout), r) == Then(gate, gate(CheckToken(Access, false), r), CheckAuthz)
  {
    var token := [CheckToken(Access, false)];
    assert Gates(c, WithLogout) == token + [CheckAuthz] && [] + token == token;
    DecideThen(gate, [], CheckToken(Access, false), r);
    DecideThen(gate, token, CheckAuthz, r);
  }

  lemma MeDecides(gate: Gating, c: Wiring, r: Request)
    ensures Decide(gate, Gates(c, WithMe), r) ==
      Then(gate, Then(gate, gate(CheckToken(Access, c.denylist), r), RequireActiveAccount), CheckAuthz)
  {
    var token := [CheckToken(Access, c.denylist)];
    var account := token + [RequireActiveAccount];
    assert Gates(c, WithMe) == account + [CheckAuthz] && [] + token == token;
    DecideThen(gate, [], CheckToken(Access, c.denylist), r);
    DecideThen(gate, token, RequireActiveAccount, r);
    DecideThen(gate, account, CheckAuthz, r);
  }

  /** A gate that lets a request through lets it through unchanged. */
  ghost predicate Unchanging(gate: Gating, stage: Stage) {
    forall q :: gate(stage, q).Pass? ==> gate(stage, q) == Pass(q)
  }

  lemma AccessIsLogoutAndBy(gate: Gating, c: Wiring, r: Request)
    requires Unchanging(gate, RequireActiveAccount) && Unchanging(gate, CheckAuthz)
    requires Unchanging(gate, RequireProjectMembership)
    requires var token := gate(CheckToken(Access, c.denylist), r);
      token.Pass? ==> gate(CheckToken(Access, false), r) == token
    ensures var token := gate(CheckToken(Access, c.denylist), r);
      var (access, logout) := (Decide(gate, Gates(c, WithAccess), r), Decide(gate, Gates(c, WithLogout), r));
      && (access.Pass? ==> access == logout)
      && (access.Pass? <==>
            && logout.Pass? && token.Pass?
            && gate(RequireActiveAccount, token.request).Pass? && gate(RequireProjectMembership, token.request).Pass?)
  {
    AccessIsMeThenMembership(gate, c, r);
    MeDecides(gate, c, r);
    LogoutDecides(gate, c, r);
  }

  lemma TokenLogout(env: Env, c: Wiring, r: Request)
    ensures var (gate, token) := (GateOf(env), Gate(env, CheckToken(Access, c.denylist), r));
      token.Pass? ==> gate(CheckToken(Access, false), r) == gate(CheckToken(Access, c.denylist), r) == token
  {
  }

  lemma OneUnchanged(env: Env, stage: Stage, q: Request)
    requires stage == RequireActiveAccount || stage == CheckAuthz || stage == RequireProjectMembership
    ensures Gate(env, stage, q).Pass? ==> Gate(env, stage, q) == Pass(q)
  {
  }

  lemma IsUnchanging(env: Env, stage: Stage)
    requires stage == RequireActiveAccount || stage == CheckAuthz || stage == RequireProjectMembership
    ensures Unchanging(GateOf(env), stage)
  {
    var gate := GateOf(env);
    forall q ensures gate(stage, q).Pass? ==> gate(stage, q) == Pass(q) {
      OneUnchanged(env, stage, q);
    }
  }

  /**
   * What the access chain lets through is exactly what the logout chain lets
   * through that is not revoked, of an active account, and of a member; and it
   * arrives as the same request.
   */
  lemma AccessIsLogoutAnd(env: Env, c: Wiring, r: Request)
    ensures var gate := GateOf(env);
      var token := gate(CheckToken(Access, c.denylist), r);
      var (access, logout) := (Decide(gate, Gates(c, WithAccess), r), Decide(gate, Gates(c, WithLogout), r));
      && (access.Pass? ==> access == logout)
      && (access.Pass? <==>
            && logout.Pass? && token.Pass?
            && gate(RequireActiveAccount, token.request).Pass? && gate(RequireProjectMembership, token.request).Pass?)
  {
    var gate := GateOf(env);
    assert gate(CheckToken(Access, c.denylist), r).Pass? ==>
      gate(CheckToken(Access, false), r) == gate(CheckToken(Access, c.denylist), r) by { TokenLogout(env, c, r); }
    IsUnchanging(env, RequireActiveAccount);
    IsUnchanging(env, CheckAuthz);
    IsUnchanging(env, RequireProjectMembership);
    AccessIsLogoutAndBy(gate, c, r);
  }

  /** From the same state, what reaches the handler through the access chain does through logout's, charged alike. */
  lemma LogoutAdmitsMore<S>(env: Env, limit: Limiter<S>, c: Wiring, r: Request, w: World<S>)
    requires Serve(env, limit, RouteChain(c, WithAccess), Handle, r, w).0.Reached?
    ensures Serve(env, limit, RouteChain(c, WithLogout), Handle, r, w)
         == Serve(env, limit, RouteChain(c, WithAccess), Handle, r, w)
  {
    RouteChainServes(env, limit, c, WithAccess, r, w);
    RouteChainServes(env, limit, c, WithLogout, r, w);
    AccessIsLogoutAnd(env, c, r);
    NoGateReaches(env, Gates(c, WithAccess), r);
  }

  lemma {:induction false} NoGateReaches(env: Env, stages: seq<Stage>, r: Request)
    ensures Decide(GateOf(env), stages, r).Stop? ==> !Decide(GateOf(env), stages, r).outcome.Reached?
  {
    if stages != [] && Gate(env, stages[0], r).Pass? {
      NoGateReaches(env, stages[1..], Gate(env, stages[0], r).request);
    }
  }

  // -------------------------------------------------------------- revoked tokens

  /** A verified access token whose id the denylist holds. */
  predicate Revoked(env: Env, r: Request) {
    var claims := VerifiedClaims(env, Access, r);
    && claims.Some? && TextOf(claims.value, "token_type") == Some("access")
    && var jti := TextOf(claims.value, "jti");
      jti.Some? && env.parse(jti.value).Some? && env.revoked(env.parse(jti.value).value)
  }

  lemma TokenGate(env: Env, kind: TokenKind, denylist: bool, r: Request)
    ensures GateOf(env)(CheckToken(kind, denylist), r) == TokenDecision(env, kind, denylist, r)
  {
    GateApplied(env, CheckToken(kind, denylist), r);
    TokenGated(env, kind, denylist, r);
  }

  lemma GateApplied(env: Env, stage: Stage, r: Request)
    ensures GateOf(env)(stage, r) == Gate(env, stage, r)
  {
  }

  lemma TokenGated(env: Env, kind: TokenKind, denylist: bool, r: Request)
    ensures Gate(env, CheckToken(kind, denylist), r) == TokenDecision(env, kind, denylist, r)
  {
  }

  /** An access token must have a readable id that is not on the denylist; a personal one is not looked up there. */
  predicate NotDenied(env: Env, claims: Claims) {
    TextOf(claims, "token_type") == Some("access") ==>
      var jti := TextOf(claims, "jti");
      jti.Some? && env.parse(jti.value).Some? && !env.revoked(env.parse(jti.value).value)
  }

  predicate MayAct(env: Env, user: nat, r: Request) {
    && env.standing(user) == Some(ActiveAccount)
    && env.authorized(user, if r.verb == "HEAD" then "GET" else r.verb, r.path) == Some(true)
    && (r.project == "" || env.parse(r.project).None?
        || env.member(env.parse(r.project).value, user) == Ok(Plain)
        || env.member(env.parse(r.project).value, user) == Ok(Admin))
  }

  lemma TokenPassIff(env: Env, c: Wiring, r: Request)
    ensures var (claims, token) := (VerifiedClaims(env, Access, r), TokenDecision(env, Access, c.denylist, r));
      && (token.Pass? <==> claims.Some? && (c.denylist ==> NotDenied(env, claims.value)))
      && (token.Pass? ==> token.request == r.(claims := claims))
  {
  }

  lemma ActsIff(env: Env, q: Request)
    ensures
      && AccountDecision(env, q).Pass? && AuthzDecision(env, q).Pass? && MembershipDecision(env, q).Pass?
      <==> Subject(env, q).Some? && MayAct(env, Subject(env, q).value, q)
  {
  }

  lemma AccessPassesBy(gate: Gating, c: Wiring, r: Request)
    requires Unchanging(gate, RequireActiveAccount) && Unchanging(gate, CheckAuthz)
    ensures var token := gate(CheckToken(Access, c.denylist), r);
      Decide(gate, Gates(c, WithAccess), r).Pass? <==>
        && token.Pass? && gate(RequireActiveAccount, token.request).Pass?
        && gate(CheckAuthz, token.request).Pass? && gate(RequireProjectMembership, token.request).Pass?
  {
    AccessIsMeThenMembership(gate, c, r);
    MeDecides(gate, c, r);
  }

  lemma GatesNamed(env: Env, q: Request)
    ensures GateOf(env)(RequireActiveAccount, q) == AccountDecision(env, q)
    ensures GateOf(env)(CheckAuthz, q) == AuthzDecision(env, q)
    ensures GateOf(env)(RequireProjectMembership, q) == MembershipDecision(env, q)
  {
    GateApplied(env, RequireActiveAccount, q);
    GateApplied(env, CheckAuthz, q);
    GateApplied(env, RequireProjectMembership, q);
  }

  lemma AccessPassesIffGates(env: Env, c: Wiring, r: Request)
    ensures var token := TokenDecision(env, Access, c.denylist, r);
      Decide(GateOf(env), Gates(c, WithAccess), r).Pass? <==>
        && token.Pass? && AccountDecision(env, token.request).Pass?
        && AuthzDecision(env, token.request).Pass? && MembershipDecision(env, token.request).Pass?
  {
    IsUnchanging(env, RequireActiveAccount);
    IsUnchanging(env, CheckAuthz);
    AccessPassesBy(GateOf(env), c, r);
    TokenGate(env, Access, c.denylist, r);
    var token := TokenDecision(env, Access, c.denylist, r);
    if token.Pass? {
      GatesNamed(env, token.request);
    }
  }

  /**
   * Who gets through the access chain's gates, in terms of what was asked: a
   * verified token that is not denied, naming an account that is active, granted
   * the action, and a member of the project if there is one.  Every lookup that
   * fails refuses.
   */
  lemma AccessPassesIff(env: Env, c: Wiring, r: Request)
    ensures var claims := VerifiedClaims(env, Access, r);
      Decide(GateOf(env), Gates(c, WithAccess), r).Pass? <==>
        && claims.Some? && (c.denylist ==> NotDenied(env, claims.value))
        && var user := Subject(env, r.(claims := claims));
          user.Some? && MayAct(env, user.value, r)
  {
    AccessPassesIffGates(env, c, r);
    TokenPassIff(env, c, r);
    if TokenDecision(env, Access, c.denylist, r).Pass? {
      ActsIff(env, TokenDecision(env, Access, c.denylist, r).request);
    }
  }

  lemma RevokedIsStopped(env: Env, c: Wiring, r: Request)
    requires c.denylist && Revoked(env, r)
    ensures Decide(GateOf(env), Gates(c, WithAccess), r).Stop?
  {
    AccessPassesIff(env, c, r);
  }

  lemma SameToken(env: Env, r: Request, project: string)
    requires Revoked(env, r)
    ensures Revoked(env, r.(project := project))
  {
    assert VerifiedClaims(env, Access, r.(project := project)) == VerifiedClaims(env, Access, r);
  }

  /** On a route behind the access chain a revoked token reaches neither the handler nor the post-auth limiter. */
  lemma RevokedReachesNothing<S>(env: Env, limit: Limiter<S>, c: Wiring, r: Request, w: World<S>)
    requires c.denylist && Revoked(env, r) && env.route(r).Some? && env.route(r).value.0 == WithAccess
    ensures var (outcome, after) := ServeAPI(env, limit, c, r, w);
      && !outcome.Reached?
      && Entries(after.charges, PostAuth) == Entries(w.charges, PostAuth)
  {
    var q := r.(project := env.route(r).value.1);
    SameToken(env, r, env.route(r).value.1);
    RevokedIsStopped(env, c, q);
    assert !GatesPass(env, c, r);
    ServeAPIIsExpected(env, limit, c, r, w);
    NoGateReaches(env, Gates(c, WithAccess), q);
    ChargedIff(env, limit, c, r, w);
    var after := ServeAPI(env, limit, c, r, w).1;
    var added := after.charges[|w.charges|..];
    assert after.charges == w.charges + added;
    CountsAppended(w.charges, added, PostAuth);
    assert |added| == 1 ==> added[..0] == [];
  }
}
