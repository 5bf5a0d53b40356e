/**
 * Who reaches a handler: for each kind of route what a request must bring, told
 * from the request, the limiter and what the services answer, and not from the
 * list of gates.
 */
module Reach {
  import opened Wrappers
  import opened Middleware
  import opened Chains

  /** The limiter, or nothing in its place, lets the request through. */
  predicate LetThrough<S>(env: Env, limit: Limiter<S>, c: Wiring, stage: RateStage, r: Request, limiter: S) {
    || !c.rules || (exists p | p in env.bypass :: p <= r.path) || env.excluded(r.address)
    || limit(stage, r, limiter).0.None?
  }

  /** What is asked of every request ahead of its route: the body, the pre-auth limiter, and no preflight. */
  predicate Admitted<S>(env: Env, limit: Limiter<S>, c: Wiring, r: Request, limiter: S) {
    && r.length <= env.bodyLimit(r)
    && (r.length > 0 || (r.length == -1 && r.chunked) ==> r.json)
    && LetThrough(env, limit, c, PreAuth, r, limiter)
    && !(c.cors && r.verb == "OPTIONS")
  }

  /** The limiter's state once the pre-auth stage has been asked, if it is. */
  function Asked<S>(env: Env, limit: Limiter<S>, c: Wiring, r: Request, limiter: S): S {
    if !c.rules || (exists p | p in env.bypass :: p <= r.path) || env.excluded(r.address) then limiter
    else limit(PreAuth, r, limiter).1
  }

  /** The claims of the token in the header, if the header has one and it verifies. */
  function Verified(env: Env, kind: TokenKind, r: Request): Option<Claims> {
    var token := env.credentials(r.authorization);
    if token.Some? then env.verify(kind, token.value) else None
  }

  predicate HasText(claims: Claims, name: string, texts: set<string>) {
    name in claims && claims[name].Text? && claims[name].text in texts
  }

  /** The token verifies as this kind and says it is one of these types. */
  predicate Presents(env: Env, kind: TokenKind, types: set<string>, r: Request) {
    Verified(env, kind, r).Some? && HasText(Verified(env, kind, r).value, "token_type", types)
  }

  /** The claims name this account. */
  predicate Names(env: Env, claims: Claims, user: nat) {
    "sub" in claims && claims["sub"].Text? && env.parse(claims["sub"].text) == Some(user)
  }

  /** The account named may do what the request asks; asking for the head of a resource is reading it. */
  ghost predicate MayDo(env: Env, claims: Claims, r: Request) {
    exists user :: Names(env, claims, user)
      && env.authorized(user, if r.verb == "HEAD" then "GET" else r.verb, r.path) == Some(true)
  }

  ghost predicate IsActive(env: Env, claims: Claims) {
    exists user :: Names(env, claims, user) && env.standing(user) == Some(ActiveAccount)
  }

  /** A member of the project, if the route has one and it is an id. */
  ghost predicate MayEnter(env: Env, claims: Claims, project: string) {
    project == "" || env.parse(project).None?
    || exists user :: Names(env, claims, user)
         && env.member(env.parse(project).value, user) in {Ok(Plain), Ok(Admin)}
  }

  /** An access token whose id is read and not denied; a personal access token is not looked up. */
  predicate IsKept(env: Env, claims: Claims) {
    HasText(claims, "token_type", {"access"}) ==>
      && "jti" in claims && claims["jti"].Text? && env.parse(claims["jti"].text).Some?
      && !env.revoked(env.parse(claims["jti"].text).value)
  }

  /** The request as a handler gets it. */
  function Arriving(r: Request, project: string, claims: Claims): Request {
    r.(project := project, claims := Some(claims))
  }

  /** Past the common chain a request is on its own route. */
  lemma OnItsRoute<S>(env: Env, limit: Limiter<S>, c: Wiring, r: Request, w: World<S>, route: Route, project: string)
    requires env.route(r) == Some((route, project))
    ensures var q := r.(project := project);
      var d := Decide(GateOf(env), Gates(c, route), q);
      var outcome := ServeAPI(env, limit, c, r, w).0;
      && (outcome.Reached? ==> d.Pass? && outcome.request == d.request)
      && (outcome.Reached? <==>
            && Admitted(env, limit, c, r, w.limiter) && d.Pass?
            && (Metered(route) ==> LetThrough(env, limit, c, PostAuth, d.request, Asked(env, limit, c, r, w.limiter))))
  {
    ServeAPIIsExpected(env, limit, c, r, w);
    NoGateReaches(env, Gates(c, route), r.(project := project));
    GatesKeep(env, Gates(c, route), r.(project := project));
  }

  lemma OneGate(gate: Gating, a: Stage, r: Request)
    ensures Decide(gate, [a], r) == gate(a, r)
  {
    DecideThen(gate, [], a, r);
    assert [] + [a] == [a];
  }

  lemma TwoGates(gate: Gating, a: Stage, b: Stage, r: Request)
    ensures Decide(gate, [a, b], r) == Then(gate, gate(a, r), b)
  {
    OneGate(gate, a, r);
    DecideThen(gate, [a], b, r);
    assert [a] + [b] == [a, b];
  }

  function TypesOf(kind: TokenKind): set<string> {
    match kind
    case Access => {"access", "personal_access"}
    case Refresh => {"refresh"}
    case PasswordReset => {"password_reset"}
    case Verification => {"email_verification"}
  }

  lemma TokenGateIff(env: Env, kind: TokenKind, types: set<string>, r: Request)
    requires types == TypesOf(kind)
    ensures var d := GateOf(env)(CheckToken(kind, false), r);
      && (d.Pass? <==> Presents(env, kind, types, r))
      && (d.Pass? ==> d.request == r.(claims := Verified(env, kind, r)))
  {
    TokenGate(env, kind, false, r);
  }

  lemma AuthzGateIff(env: Env, r: Request, claims: Claims)
    requires r.claims == Some(claims)
    ensures GateOf(env)(CheckAuthz, r).Pass? <==> MayDo(env, claims, r)
    ensures GateOf(env)(CheckAuthz, r).Pass? ==> GateOf(env)(CheckAuthz, r) == Pass(r)
  {
    GateApplied(env, CheckAuthz, r);
    assert forall user: nat :: Names(env, claims, user) <==> Subject(env, r) == Some(user);
  }

  lemma TokenThenAuthz(env: Env, kind: TokenKind, types: set<string>, r: Request)
    requires types == TypesOf(kind)
    ensures var d := Decide(GateOf(env), [CheckToken(kind, false), CheckAuthz], r);
      && (d.Pass? <==> Presents(env, kind, types, r) && MayDo(env, Verified(env, kind, r).value, r))
      && (d.Pass? ==> d.request == r.(claims := Verified(env, kind, r)))
  {
    TwoGates(GateOf(env), CheckToken(kind, false), CheckAuthz, r);
    TokenGateIff(env, kind, types, r);
    if Presents(env, kind, types, r) {
      AuthzGateIff(env, r.(claims := Verified(env, kind, r)), Verified(env, kind, r).value);
    }
  }

  /** A password reset reaches its handler with a reset token whose account is granted the action, and no other way. */
  lemma ResetReachedIff<S>(env: Env, limit: Limiter<S>, c: Wiring, r: Request, w: World<S>, project: string)
    requires env.route(r) == Some((WithReset, project))
    ensures ServeAPI(env, limit, c, r, w).0.Reached? <==>
      && Admitted(env, limit, c, r, w.limiter)
      && Presents(env, PasswordReset, {"password_reset"}, r)
      && MayDo(env, Verified(env, PasswordReset, r).value, r)
    ensures var outcome := ServeAPI(env, limit, c, r, w).0;
      outcome.Reached? ==> outcome.request == Arriving(r, project, Verified(env, PasswordReset, r).value)
  {
    OnItsRoute(env, limit, c, r, w, WithReset, project);
    TokenThenAuthz(env, PasswordReset, {"password_reset"}, r.(project := project));
  }

  /** A refresh does with a refresh token whose account is granted the action, past the post-auth limiter. */
  lemma RefreshReachedIff<S>(env: Env, limit: Limiter<S>, c: Wiring, r: Request, w: World<S>, project: string)
    requires env.route(r) == Some((WithRefresh, project))
    ensures ServeAPI(env, limit, c, r, w).0.Reached? <==>
      && Admitted(env, limit, c, r, w.limiter)
      && Presents(env, Refresh, {"refresh"}, r)
      && var claims := Verified(env, Refresh, r).value;
        && MayDo(env, claims, r)
        && LetThrough(env, limit, c, PostAuth, Arriving(r, project, claims), Asked(env, limit, c, r, w.limiter))
    ensures var outcome := ServeAPI(env, limit, c, r, w).0;
      outcome.Reached? ==> outcome.request == Arriving(r, project, Verified(env, Refresh, r).value)
  {
    OnItsRoute(env, limit, c, r, w, WithRefresh, project);
    TokenThenAuthz(env, Refresh, {"refresh"}, r.(project := project));
  }

  /** A verification does with a verification token alone: no grant is asked. */
  lemma VerificationReachedIff<S>(env: Env, limit: Limiter<S>, c: Wiring, r: Request, w: World<S>, project: string)
    requires env.route(r) == Some((WithVerification, project))
    ensures ServeAPI(env, limit, c, r, w).0.Reached? <==>
      Admitted(env, limit, c, r, w.limiter) && Presents(env, Verification, {"email_verification"}, r)
    ensures var outcome := ServeAPI(env, limit, c, r, w).0;
      outcome.Reached? ==> outcome.request == Arriving(r, project, Verified(env, Verification, r).value)
  {
    OnItsRoute(env, limit, c, r, w, WithVerification, project);
    OneGate(GateOf(env), CheckToken(Verification, false), r.(project := project));
    TokenGateIff(env, Verification, {"email_verification"}, r.(project := project));
  }

  /** A logout does with an access token, denied or not, and of an account in whatever standing. */
  lemma LogoutReachedIff<S>(env: Env, limit: Limiter<S>, c: Wiring, r: Request, w: World<S>, project: string)
    requires env.route(r) == Some((WithLogout, project))
    ensures ServeAPI(env, limit, c, r, w).0.Reached? <==>
      && Admitted(env, limit, c, r, w.limiter)
      && Presents(env, Access, {"access", "personal_access"}, r)
      && var claims := Verified(env, Access, r).value;
        && MayDo(env, claims, r)
        && LetThrough(env, limit, c, PostAuth, Arriving(r, project, claims), Asked(env, limit, c, r, w.limiter))
    ensures var outcome := ServeAPI(env, limit, c, r, w).0;
      outcome.Reached? ==> outcome.request == Arriving(r, project, Verified(env, Access, r).value)
  {
    OnItsRoute(env, limit, c, r, w, WithLogout, project);
    TokenThenAuthz(env, Access, {"access", "personal_access"}, r.(project := project));
  }

  /** An open route asks for no token. */
  lemma OpenReachedIff<S>(env: Env, limit: Limiter<S>, c: Wiring, r: Request, w: World<S>, project: string)
    requires env.route(r) == Some((Open, project))
    ensures ServeAPI(env, limit, c, r, w).0.Reached? <==> Admitted(env, limit, c, r, w.limiter)
  {
    OnItsRoute(env, limit, c, r, w, Open, project);
  }

  lemma StandsIff(env: Env, claims: Claims, r: Request)
    requires r.claims == Some(claims)
    ensures AccountDecision(env, r).Pass? && AuthzDecision(env, r).Pass?
      <==> IsActive(env, claims) && MayDo(env, claims, r)
    ensures AccountDecision(env, r).Pass? && MembershipDecision(env, r).Pass?
      <==> IsActive(env, claims) && MayEnter(env, claims, r.project)
  {
    assert forall user: nat :: Names(env, claims, user) <==> Subject(env, r) == Some(user);
  }

  lemma AccessTokenIff(env: Env, c: Wiring, r: Request)
    ensures var token := TokenDecision(env, Access, c.denylist, r);
      && (token.Pass? <==>
            && Presents(env, Access, {"access", "personal_access"}, r)
            && (c.denylist ==> IsKept(env, Verified(env, Access, r).value)))
      && (token.Pass? ==> token.request == r.(claims := Verified(env, Access, r)))
  {
    TokenPassIff(env, c, r);
  }

  lemma AccessGatesIff(env: Env, c: Wiring, r: Request)
    ensures var d := Decide(GateOf(env), Gates(c, WithAccess), r);
      && (d.Pass? <==>
            && Presents(env, Access, {"access", "personal_access"}, r)
            && var claims := Verified(env, Access, r).value;
              && (c.denylist ==> IsKept(env, claims))
              && IsActive(env, claims) && MayDo(env, claims, r) && MayEnter(env, claims, r.project))
      && (d.Pass? ==> d.request == r.(claims := Verified(env, Access, r)))
  {
    AccessPassesIffGates(env, c, r);
    AccessTokenIff(env, c, r);
    var token := TokenDecision(env, Access, c.denylist, r);
    if token.Pass? {
      StandsIff(env, Verified(env, Access, r).value, token.request);
      AccessRequest(env, c, r);
    }
  }

  lemma AccessRequest(env: Env, c: Wiring, r: Request)
    ensures var (d, token) := (Decide(GateOf(env), Gates(c, WithAccess), r), TokenDecision(env, Access, c.denylist, r));
      d.Pass? ==> token.Pass? && d.request == token.request
  {
    IsUnchanging(env, RequireActiveAccount);
    IsUnchanging(env, CheckAuthz);
    IsUnchanging(env, RequireProjectMembership);
    AccessIsMeThenMembership(GateOf(env), c, r);
    MeDecides(GateOf(env), c, r);
    TokenGate(env, Access, c.denylist, r);
  }

  /** Every other route with an access token that is kept, of an active account, granted the action, in its project. */
  lemma AccessReachedIff<S>(env: Env, limit: Limiter<S>, c: Wiring, r: Request, w: World<S>, project: string)
    requires env.route(r) == Some((WithAccess, project))
    ensures ServeAPI(env, limit, c, r, w).0.Reached? <==>
      && Admitted(env, limit, c, r, w.limiter)
      && Presents(env, Access, {"access", "personal_access"}, r)
      && var claims := Verified(env, Access, r).value;
        && (c.denylist ==> IsKept(env, claims))
        && IsActive(env, claims) && MayDo(env, claims, r) && MayEnter(env, claims, project)
        && LetThrough(env, limit, c, PostAuth, Arriving(r, project, claims), Asked(env, limit, c, r, w.limiter))
    ensures var outcome := ServeAPI(env, limit, c, r, w).0;
      outcome.Reached? ==> outcome.request == Arriving(r, project, Verified(env, Access, r).value)
  {
    OnItsRoute(env, limit, c, r, w, WithAccess, project);
    AccessGatesIff(env, c, r.(project := project));
  }

  lemma MeGatesIff(env: Env, c: Wiring, r: Request)
    ensures var d := Decide(GateOf(env), Gates(c, WithMe), r);
      && (d.Pass? <==>
            && Presents(env, Access, {"access", "personal_access"}, r)
            && var claims := Verified(env, Access, r).value;
              (c.denylist ==> IsKept(env, claims)) && IsActive(env, claims) && MayDo(env, claims, r))
      && (d.Pass? ==> d.request == r.(claims := Verified(env, Access, r)))
  {
    IsUnchanging(env, RequireActiveAccount);
    IsUnchanging(env, CheckAuthz);
    MeDecides(GateOf(env), c, r);
    TokenGate(env, Access, c.denylist, r);
    AccessTokenIff(env, c, r);
    var token := TokenDecision(env, Access, c.denylist, r);
    if token.Pass? {
      GatesNamed(env, token.request);
      StandsIff(env, Verified(env, Access, r).value, token.request);
    }
  }

  /** The caller's own account, which is in no project, does with the same less the membership. */
  lemma MeReachedIff<S>(env: Env, limit: Limiter<S>, c: Wiring, r: Request, w: World<S>, project: string)
    requires env.route(r) == Some((WithMe, project))
    ensures ServeAPI(env, limit, c, r, w).0.Reached? <==>
      && Admitted(env, limit, c, r, w.limiter)
      && Presents(env, Access, {"access", "personal_access"}, r)
      && var claims := Verified(env, Access, r).value;
        && (c.denylist ==> IsKept(env, claims))
        && IsActive(env, claims) && MayDo(env, claims, r)
        && LetThrough(env, limit, c, PostAuth, Arriving(r, project, claims), Asked(env, limit, c, r, w.limiter))
    ensures var outcome := ServeAPI(env, limit, c, r, w).0;
      outcome.Reached? ==> outcome.request == Arriving(r, project, Verified(env, Access, r).value)
  {
    OnItsRoute(env, limit, c, r, w, WithMe, project);
    MeGatesIff(env, c, r.(project := project));
  }

  // ------------------------------------------------- what a refused request gets

  /** The id of an access token, when it is there, is text and parses. */
  function TokenId(env: Env, claims: Claims): Option<nat> {
    if "jti" in claims && claims["jti"].Text? then env.parse(claims["jti"].text) else None
  }

  /** The account's id, when the claims have one that parses. */
  function AccountId(env: Env, claims: Claims): Option<nat> {
    if "sub" in claims && claims["sub"].Text? then env.parse(claims["sub"].text) else None
  }

  function Unauthenticated(): Outcome {
    Refused(401, false)
  }

  /** What the access chain's token check answers, and the code that tells a client not to refresh and retry. */
  lemma TokenRefusals(env: Env, c: Wiring, r: Request)
    ensures GateOf(env)(CheckToken(Access, c.denylist), r) ==
      if !Presents(env, Access, {"access", "personal_access"}, r) then Stop(Unauthenticated())
      else
        var claims := Verified(env, Access, r).value;
        if !c.denylist || !HasText(claims, "token_type", {"access"}) then Pass(r.(claims := Some(claims)))
        else if TokenId(env, claims).None? then Stop(Unauthenticated())
        else if env.revoked(TokenId(env, claims).value) then Stop(Refused(401, true))
        else Pass(r.(claims := Some(claims)))
  {
    TokenGate(env, Access, c.denylist, r);
  }

  /** What the account, grant and membership checks answer for the account named. */
  lemma AccountRefusals(env: Env, r: Request, claims: Claims)
    requires r.claims == Some(claims)
    ensures AccountId(env, claims).None? ==> GateOf(env)(RequireActiveAccount, r) == Stop(Unauthenticated())
    ensures AccountId(env, claims).Some? ==>
      var user := AccountId(env, claims).value;
      && GateOf(env)(RequireActiveAccount, r) ==
           (if env.standing(user).None? then Stop(Refused(500, false))
            else if env.standing(user) == Some(ActiveAccount) then Pass(r)
            else Stop(Refused(401, true)))
      && var granted := env.authorized(user, if r.verb == "HEAD" then "GET" else r.verb, r.path);
         GateOf(env)(CheckAuthz, r) ==
           if granted.None? then Stop(Refused(500, false))
           else if granted.value then Pass(r) else Stop(Refused(403, false))
  {
    GatesNamed(env, r);
  }

  lemma MembershipRefusals(env: Env, r: Request, claims: Claims)
    requires r.claims == Some(claims) && AccountId(env, claims).Some?
    ensures GateOf(env)(RequireProjectMembership, r) ==
      if r.project == "" || env.parse(r.project).None? then Pass(r)
      else
        match env.member(env.parse(r.project).value, AccountId(env, claims).value)
        case Err(status) => Stop(Refused(status, false))
        case Ok(m) => if m == NotMember then Stop(Refused(404, false)) else Pass(r)
  {
    GatesNamed(env, r);
  }

  /**
   * The answer to a request whose token is good, by what is found out about its
   * account in turn: no account named, a lookup that failed, an account that is
   * not active, an action not granted, a project it is not in.
   */
  function AccountAnswer(env: Env, r: Request, claims: Claims): Outcome {
    match AccountId(env, claims)
    case None => Unauthenticated()
    case Some(user) =>
      var granted := env.authorized(user, if r.verb == "HEAD" then "GET" else r.verb, r.path);
      if env.standing(user).None? then Refused(500, false)
      else if env.standing(user) != Some(ActiveAccount) then Refused(401, true)
      else if granted.None? then Refused(500, false)
      else if !granted.value then Refused(403, false)
      else if r.project == "" || env.parse(r.project).None? then Reached(r)
      else
        match env.member(env.parse(r.project).value, user)
        case Err(status) => Refused(status, false)
        case Ok(m) => if m == NotMember then Refused(404, false) else Reached(r)
  }

  /** What the gates of the access chain answer, told from the request and the services. */
  function AccessAnswer(env: Env, c: Wiring, r: Request): Outcome {
    if !Presents(env, Access, {"access", "personal_access"}, r) then Unauthenticated()
    else
      var claims := Verified(env, Access, r).value;
      var looked := c.denylist && HasText(claims, "token_type", {"access"});
      if looked && TokenId(env, claims).None? then Unauthenticated()
      else if looked && env.revoked(TokenId(env, claims).value) then Refused(401, true)
      else AccountAnswer(env, r.(claims := Some(claims)), claims)
  }

  lemma AccessRefusals(env: Env, c: Wiring, r: Request)
    ensures Decide(GateOf(env), Gates(c, WithAccess), r) ==
      if AccessAnswer(env, c, r).Reached? then Pass(AccessAnswer(env, c, r).request) else Stop(AccessAnswer(env, c, r))
  {
    AccessIsMeThenMembership(GateOf(env), c, r);
    MeDecides(GateOf(env), c, r);
    TokenRefusals(env, c, r);
    var token := GateOf(env)(CheckToken(Access, c.denylist), r);
    if token.Pass? {
      var claims := Verified(env, Access, r).value;
      AccountRefusals(env, token.request, claims);
      if AccountId(env, claims).Some? {
        MembershipRefusals(env, token.request, claims);
      }
    }
  }

  /** The whole answer to a request behind the access chain: the first of everything that can be wrong with it. */
  lemma AccessAnswered<S>(env: Env, limit: Limiter<S>, c: Wiring, r: Request, w: World<S>, project: string)
    requires env.route(r) == Some((WithAccess, project))
    ensures var answer := AccessAnswer(env, c, r.(project := project));
      var asked := Asked(env, limit, c, r, w.limiter);
      ServeAPI(env, limit, c, r, w).0 ==
        if r.length > env.bodyLimit(r) then Refused(413, false)
        else if (r.length > 0 || (r.length == -1 && r.chunked)) && !r.json then Refused(415, false)
        else if !LetThrough(env, limit, c, PreAuth, r, w.limiter) then
          Refused(limit(PreAuth, r, w.limiter).0.value, false)
        else if c.cors && r.verb == "OPTIONS" then Preflight
        else if answer.Reached? && !LetThrough(env, limit, c, PostAuth, answer.request, asked) then
          Refused(limit(PostAuth, answer.request, asked).0.value, false)
        else answer
  {
    ServeAPIIsExpected(env, limit, c, r, w);
    AccessRefusals(env, c, r.(project := project));
    GatesKeep(env, Gates(c, WithAccess), r.(project := project));
  }
}
