/**
 * The HTTP middleware of the server: what each stage does with a request, how
 * Chain composes stages, and the chains the composition root builds.  The
 * limiter is any function of its stage, the request and its own state.
 */
module Middleware {
  import opened Wrappers
  import opened Strings

  // ------------------------------------------------------- requests and answers

  datatype Claim = Text(text: string) | Other

  type Claims = map<string, Claim>

  /** `length` is -1 when a body's length is not declared; `claims` is what a verified token put in the context. */
  datatype Request = Request(
    verb: string, path: string, address: string, authorization: string,
    length: int, chunked: bool, json: bool, project: string, claims: Option<Claims>)

  datatype Outcome =
    | Refused(status: int, revoked: bool)
    | Preflight
    | Unrouted
    | Reached(request: Request)

  datatype RateStage = PreAuth | PostAuth

  /** One request put to a limiter stage, and whether it was let through. */
  datatype Charge = Charge(stage: RateStage, admitted: bool)

  /** The limiter's own state, and every charge so far. */
  datatype World<S> = World(limiter: S, charges: seq<Charge>)

  /** A refusal's status, if it refuses, and the limiter's new state. */
  type Limiter<!S> = (RateStage, Request, S) -> (Option<int>, S)

  datatype TokenKind = Access | Refresh | PasswordReset | Verification

  datatype Standing = UnknownAccount | ActiveAccount | DisabledAccount | MissingAccount

  datatype Member = NotMember | Plain | Admin

  datatype Route = Open | WithAccess | WithLogout | WithMe | WithRefresh | WithReset | WithVerification

  /**
   * The services and settings the stages ask; None is a lookup that fails.  The
   * server's `credentials` is Credentials; the chains hold for any reading of the header.
   */
  datatype Env = Env(
    credentials: string -> Option<string>,
    bypass: seq<string>, excluded: string -> bool, bodyLimit: Request -> nat,
    verify: (TokenKind, string) -> Option<Claims>, parse: string -> Option<nat>, revoked: nat -> bool,
    standing: nat -> Option<Standing>, authorized: (nat, string, string) -> Option<bool>,
    member: (nat, nat) -> Result<Member, int>, route: Request -> Option<(Route, string)>)

  // --------------------------------------------------------------------- stages

  datatype Stage =
    | Transport
    | MaxBody
    | RequireJSONBody
    | Limit(stage: RateStage)
    | Cors
    | CheckToken(kind: TokenKind, denylist: bool)
    | RequireActiveAccount
    | CheckAuthz
    | RequireProjectMembership

  /** A stage hands the request on, or answers it. */
  datatype Decision = Pass(request: Request) | Stop(outcome: Outcome)

  predicate Exempt(env: Env, r: Request) {
    (exists p | p in env.bypass :: p <= r.path) || env.excluded(r.address)
  }

  function Unauthorized(): Decision {
    Stop(Refused(401, false))
  }

  function Lower(c: char): char {
    if 'A' <= c <= 'Z' then c + ('a' - 'A') else c
  }

  /** strings.EqualFold against a word of the letters b, e, a and r, none of which folds outside ASCII. */
  predicate IsBearer(scheme: string) {
    |scheme| == 6 && forall i | 0 <= i < 6 :: Lower(scheme[i]) == "bearer"[i]
  }

  /** Letter by letter, in either case. */
  lemma BearerIff(scheme: string)
    ensures IsBearer(scheme) <==>
      && |scheme| == 6 && scheme[0] in {'b', 'B'} && scheme[1] in {'e', 'E'} && scheme[2] in {'a', 'A'}
      && scheme[3] in {'r', 'R'} && scheme[4] in {'e', 'E'} && scheme[5] in {'r', 'R'}
  {
    assert "bearer"[0] == 'b' && "bearer"[1] == 'e' && "bearer"[2] == 'a' && "bearer"[3] == 'r' && "bearer"[4] == 'e'
      && "bearer"[5] == 'r';
  }

  /** The token of the Authorization header: what follows the first space, trimmed. */
  function Credentials(authorization: string): Option<string> {
    var i := Index(authorization, ' ');
    if i == |authorization| || !IsBearer(authorization[..i]) then None
    else
      var token := TrimSpace(authorization[i + 1..]);
      if token == "" then None else Some(token)
  }

  /** A header is accepted exactly with the scheme Bearer, however cased, and a token that is not blank. */
  lemma CredentialsIff(authorization: string)
    ensures Credentials(authorization).Some? <==>
      exists scheme, rest :: IsBearer(scheme) && TrimSpace(rest) != "" && authorization == scheme + [' '] + rest
    ensures forall scheme, rest | IsBearer(scheme) && authorization == scheme + [' '] + rest && TrimSpace(rest) != "" ::
      Credentials(authorization) == Some(TrimSpace(rest))
  {
    var i := Index(authorization, ' ');
    if Credentials(authorization).Some? {
      var (scheme, rest) := (authorization[..i], authorization[i + 1..]);
      assert authorization == scheme + [' '] + rest;
      assert IsBearer(scheme) && TrimSpace(rest) != "";
    } else {
      forall scheme, rest | IsBearer(scheme) && authorization == scheme + [' '] + rest ensures TrimSpace(rest) == "" {
        BearerHasNoSpace(scheme);
        IndexOf(scheme, ' ', rest);
      }
    }
    forall scheme, rest | IsBearer(scheme) && authorization == scheme + [' '] + rest && TrimSpace(rest) != ""
      ensures Credentials(authorization) == Some(TrimSpace(rest))
    {
      BearerHasNoSpace(scheme);
      IndexOf(scheme, ' ', rest);
    }
  }

  lemma BearerHasNoSpace(scheme: string)
    requires IsBearer(scheme)
    ensures ' ' !in scheme
  {
    BearerIff(scheme);
  }

  predicate TypeFits(kind: TokenKind, name: string) {
    match kind
    case Access => name == "access" || name == "personal_access"
    case Refresh => name == "refresh"
    case PasswordReset => name == "password_reset"
    case Verification => name == "email_verification"
  }

  /** A claim that is there and is text. */
  function TextOf(claims: Claims, name: string): Option<string> {
    if name in claims && claims[name].Text? then Some(claims[name].text) else None
  }

  /** The claims of a request's token, or None when it is refused before the denylist is asked. */
  function VerifiedClaims(env: Env, kind: TokenKind, r: Request): Option<Claims> {
    match env.credentials(r.authorization)
    case None => None
    case Some(token) =>
      match env.verify(kind, token)
      case None => None
      case Some(claims) =>
        var name := TextOf(claims, "token_type");
        if name.Some? && TypeFits(kind, name.value) then Some(claims) else None
  }

  function TokenDecision(env: Env, kind: TokenKind, denylist: bool, r: Request): Decision {
    match VerifiedClaims(env, kind, r)
    case None => Unauthorized()
    case Some(claims) =>
      var passed := Pass(r.(claims := Some(claims)));
      if !denylist || TextOf(claims, "token_type") != Some("access") then passed
      else
        match TextOf(claims, "jti")
        case None => Unauthorized()
        case Some(jti) =>
          match env.parse(jti)
          case None => Unauthorized()
          case Some(id) => if env.revoked(id) then Stop(Refused(401, true)) else passed
  }

  /** The account a verified request names, if it names one. */
  function Subject(env: Env, r: Request): Option<nat> {
    if r.claims.None? then None
    else
      match TextOf(r.claims.value, "sub")
      case None => None
      case Some(sub) => env.parse(sub)
  }

  function AccountDecision(env: Env, r: Request): Decision {
    match Subject(env, r)
    case None => Unauthorized()
    case Some(user) =>
      match env.standing(user)
      case None => Stop(Refused(500, false))
      case Some(s) => if s == ActiveAccount then Pass(r) else Stop(Refused(401, true))
  }

  function AuthzDecision(env: Env, r: Request): Decision {
    match Subject(env, r)
    case None => Unauthorized()
    case Some(user) =>
      match env.authorized(user, if r.verb == "HEAD" then "GET" else r.verb, r.path)
      case None => Stop(Refused(500, false))
      case Some(granted) => if granted then Pass(r) else Stop(Refused(403, false))
  }

  /** A route without a project, or with one that is no id, is let through. */
  function MembershipDecision(env: Env, r: Request): Decision {
    if r.project == "" || env.parse(r.project).None? then Pass(r)
    else
      match Subject(env, r)
      case None => Unauthorized()
      case Some(user) =>
        match env.member(env.parse(r.project).value, user)
        case Err(status) => Stop(Refused(status, false))
        case Ok(m) => if m == NotMember then Stop(Refused(404, false)) else Pass(r)
  }

  predicate HasBody(r: Request) {
    r.length > 0 || (r.length == -1 && r.chunked)
  }

  /** What a stage that is no limiter decides. */
  function Gate(env: Env, stage: Stage, r: Request): Decision {
    match stage
    case Transport => Pass(r)
    case Limit(_) => Pass(r)
    case MaxBody => if r.length > env.bodyLimit(r) then Stop(Refused(413, false)) else Pass(r)
    case RequireJSONBody => if HasBody(r) && !r.json then Stop(Refused(415, false)) else Pass(r)
    case Cors => if r.verb == "OPTIONS" then Stop(Preflight) else Pass(r)
    case CheckToken(kind, denylist) => TokenDecision(env, kind, denylist, r)
    case RequireActiveAccount => AccountDecision(env, r)
    case CheckAuthz => AuthzDecision(env, r)
    case RequireProjectMembership => MembershipDecision(env, r)
  }

  // ----------------------------------------------------- handlers as functions

  type Handler<!S> = (Request, World<S>) -> (Outcome, World<S>)

  type Mdw<!S> = Handler<S> -> Handler<S>

  /** RateLimit: one call of the limiter. */
  function RateLimit<S>(limit: Limiter<S>, stage: RateStage): Mdw<S> {
    (next: Handler<S>) => (r: Request, w: World<S>) =>
      var (refusal, after) := limit(stage, r, w.limiter);
      var charged := World(after, w.charges + [Charge(stage, refusal.None?)]);
      if refusal.Some? then (Refused(refusal.value, false), charged) else next(r, charged)
  }

  /** RateLimitExemptions.Wrap: an exempt request goes past the limiter, not through it. */
  function Wrap<S>(env: Env, limiter: Mdw<S>): Mdw<S> {
    (next: Handler<S>) => (r: Request, w: World<S>) =>
      if Exempt(env, r) then next(r, w) else limiter(next)(r, w)
  }

  function Gated<S>(env: Env, stage: Stage): Mdw<S> {
    (next: Handler<S>) => (r: Request, w: World<S>) =>
      match Gate(env, stage, r)
      case Pass(passed) => next(passed, w)
      case Stop(outcome) => (outcome, w)
  }

  function MdwOf<S>(env: Env, limit: Limiter<S>, stage: Stage): Mdw<S> {
    match stage
    case Limit(s) => Wrap(env, RateLimit(limit, s))
    case _ => Gated(env, stage)
  }

  function Mdws<S>(env: Env, limit: Limiter<S>, stages: seq<Stage>): seq<Mdw<S>> {
    if stages == [] then [] else [MdwOf(env, limit, stages[0])] + Mdws(env, limit, stages[1..])
  }

  /** The first element listed is outermost. */
  function Wrapped<S>(mws: seq<Mdw<S>>, h: Handler<S>): Handler<S> {
    if mws == [] then h else mws[0](Wrapped(mws[1..], h))
  }

  method Chain<S>(mws: seq<Mdw<S>>, handler: Handler<S>) returns (h: Handler<S>)
    ensures h == Wrapped(mws, handler)
  {
    h := handler;
    for i := 0 to |mws|
      invariant h == Wrapped(mws[|mws| - i..], handler)
    {
      var rest := mws[|mws| - 1 - i..];
      assert rest[0] == mws[|mws| - 1 - i] && rest[1..] == mws[|mws| - i..];
      h := mws[|mws| - 1 - i](h);
    }
  }

  // ------------------------------------------------------------ what a chain does

  /** A request taken through the stages one by one, from the first. */
  function Serve<S>(
    env: Env, limit: Limiter<S>, stages: seq<Stage>, inner: Handler<S>, r: Request, w: World<S>): (Outcome, World<S>)
  {
    if stages == [] then inner(r, w)
    else if stages[0].Limit? then
      if Exempt(env, r) then Serve(env, limit, stages[1..], inner, r, w)
      else
        var (refusal, after) := limit(stages[0].stage, r, w.limiter);
        var charged := World(after, w.charges + [Charge(stages[0].stage, refusal.None?)]);
        if refusal.Some? then (Refused(refusal.value, false), charged)
        else Serve(env, limit, stages[1..], inner, r, charged)
    else
      match Gate(env, stages[0], r)
      case Pass(passed) => Serve(env, limit, stages[1..], inner, passed, w)
      case Stop(outcome) => (outcome, w)
  }

  /** The handler that Chain builds serves a request stage by stage in the order listed. */
  lemma {:induction false} ChainServes<S>(
    env: Env, limit: Limiter<S>, stages: seq<Stage>, inner: Handler<S>, r: Request, w: World<S>)
    ensures Wrapped(Mdws(env, limit, stages), inner)(r, w) == Serve(env, limit, stages, inner, r, w)
  {
    if stages != [] {
      var rest := Wrapped(Mdws(env, limit, stages[1..]), inner);
      assert Mdws(env, limit, stages)[1..] == Mdws(env, limit, stages[1..]);
      assert Wrapped(Mdws(env, limit, stages), inner) == MdwOf(env, limit, stages[0])(rest);
      if stages[0].Limit? {
        var (refusal, after) := limit(stages[0].stage, r, w.limiter);
        ChainServes(env, limit, stages[1..], inner, r, w);
        ChainServes(env, limit, stages[1..], inner, r, World(after, w.charges + [Charge(stages[0].stage, true)]));
      } else if Gate(env, stages[0], r).Pass? {
        ChainServes(env, limit, stages[1..], inner, Gate(env, stages[0], r).request, w);
      }
    }
  }
}
