/** What a granted token request guarantees, across all grants of the shared handler: who may get a
    token, and that token, reply and emitted event agree (src/mock_idp/token_handler.py). */
module Issuance {
  import opened Wrappers
  import opened Text
  import opened Keys
  import opened Tokens
  import opened Stores
  import opened Models
  import opened Roles
  import opened Overrides
  import opened Grants

  // ── Who gets a token ──────────────────────────────────────────────────────

  /** The identity whose token is asked for: a user by name and password, else a service principal by
      id and secret. */
  function Identified(env: Env, req: Request): Option<Identity> {
    var form := req.Form();
    if req.Field("grant_type") == "password" then
      match Lookup(env.users, req.Field("username"))
      case Some(user) => if Lookup(form, "password") == Some(user.core.secret) then Some(OfUser(user)) else None
      case None => None
    else
      match Lookup(env.principals, req.Field("client_id"))
      case Some(sp) => if Lookup(form, "client_secret") == Some(sp.core.secret) then Some(OfPrincipal(sp)) else None
      case None => None
  }

  function IdentityKey(req: Request): string {
    req.Field(if req.Field("grant_type") == "password" then "username" else "client_id")
  }

  /** The audience the token will be for: token exchange alone may name it directly. */
  function Target(req: Request): string {
    if req.Field("grant_type") == "urn:ietf:params:oauth:grant-type:token-exchange" && req.Field("audience") != ""
    then req.Field("audience")
    else ResolveAud(req)
  }

  /** The issuer's mode, if it has one that is not empty, or else the store's, decides, unless it is
      neither lax nor strict: then the global one does. */
  predicate Strict(env: Env, issuer: string) {
    var mode := if issuer in env.issuerModes && env.issuerModes[issuer] != "" then env.issuerModes[issuer] else env.mode;
    if mode == "lax" || mode == "strict" then mode == "strict" else env.globalMode == "strict"
  }

  /** In strict mode, a registered app must list the user's name, or the service principal's config key
      (should that be empty, the id of the request), among its grants; without an app the audience
      must be on the identity's own list. A service principal that may override claims is exempt. */
  predicate MayHaveToken(env: Env, issuer: string, req: Request) {
    match Identified(env, req)
    case None => false
    case Some(OfUser(user)) =>
      || !Strict(env, issuer)
      || (if Target(req) in env.apps then req.Field("username") in env.apps[Target(req)].grants
          else Target(req) in user.core.allowedAudiences)
    case Some(OfPrincipal(sp)) =>
      var holder := if sp.name == "" then req.Field("client_id") else sp.name;
      || !Strict(env, issuer)
      || sp.overrideAnyClaim
      || (if Target(req) in env.apps then holder in env.apps[Target(req)].grants
          else Target(req) in sp.core.allowedAudiences)
  }

  /** The base claims of the identity's provider; None is a provider that fails. */
  function Base(env: Env, issuer: string, req: Request): Option<Claims> {
    match Identified(env, req)
    case None => None
    case Some(identity) =>
      var core, aud := identity.Core(), Target(req);
      var shape, life := ResolveShape(core.tokenVersion, req), ResolveExpiry(core.lifetime, req, env.parse);
      var roles := RolesOverride(
                     ResolveRoles(IdentityKey(req), identity, aud, env.apps), Lookup(req.headers, "x-override-roles"));
      match identity
      case OfUser(user) => env.userClaims(issuer, user, aud, shape, life, roles, Lookup(req.Form(), "client_id"))
      case OfPrincipal(sp) => env.spClaims(issuer, sp, aud, shape, life, roles)
  }

  predicate NumericExp(claims: Claims) {
    "exp" in claims && claims["exp"].Num?
  }

  /** Does the client-credentials form set `exp`? */
  predicate OverridesExp(env: Env, req: Request) {
    && req.Field("grant_type") == "client_credentials" && "exp" in req.Form()
    && ClientAuthenticated(env, req) && env.principals[req.Field("client_id")].overrideAnyClaim
  }

  /** Will the claims to be signed have a numeric `exp`, before any are omitted? */
  predicate ExpIsNumeric(env: Env, req: Request, base: Claims) {
    if OverridesExp(env, req) then env.parse(req.Form()["exp"]).Some? else NumericExp(base)
  }

  /** The ends of a grant's own work: the target is refused, a provider fails, or claims are built. */
  ghost predicate Decided(env: Env, issuer: string, req: Request, step: Step) {
    if !MayHaveToken(env, issuer, req) then step == Stop(Refused(400, "invalid_target"))
    else
      match Base(env, issuer, req)
      case None => step == Stop(Failed(None))
      case Some(base) => step.Go? && (NumericExp(step.claims) <==> ExpIsNumeric(env, req, base))
  }

  lemma AudienceDecided(env: Env, issuer: string, req: Request, identity: Identity)
    requires Identified(env, req) == Some(identity)
    ensures CheckAudience(IdentityKey(req), identity, Target(req), EffectiveMode(env, issuer), env.globalMode, env.apps)
            <==> MayHaveToken(env, issuer, req)
  {
    StrictDecided(env, issuer);
  }

  lemma StrictDecided(env: Env, issuer: string)
    ensures var mode := EffectiveMode(env, issuer);
            Strict(env, issuer) <==> (if mode == "lax" || mode == "strict" then mode else env.globalMode) == "strict"
  {
  }

  lemma UserDecided(env: Env, issuer: string, req: Request)
    requires req.Field("grant_type") == "password"
    ensures var step := UserGrant(env, issuer, EffectiveMode(env, issuer), req);
            if Identified(env, req).None? then step == Stop(Refused(401, "invalid_grant"))
            else Decided(env, issuer, req, step)
  {
    if Identified(env, req).Some? {
      AudienceDecided(env, issuer, req, Identified(env, req).value);
    }
  }

  lemma PrincipalDecided(env: Env, issuer: string, req: Request, aud: string)
    requires ClientAuthenticated(env, req) && req.Field("grant_type") != "password" && aud == Target(req)
    ensures Identified(env, req).Some?
    ensures var step := SpGrant(env, issuer, EffectiveMode(env, issuer), req, aud);
            if !MayHaveToken(env, issuer, req) then step == Stop(Refused(400, "invalid_target"))
            else
              match Base(env, issuer, req)
              case None => step == Stop(Failed(None))
              case Some(base) => step.Go? && step.claims == base
  {
    AudienceDecided(env, issuer, req, Identified(env, req).value);
  }

  lemma OverriddenExp(base: Claims, form: map<string, string>, allowIss: bool, parse: ParseInt)
    ensures NumericExp(Overridden(base, form, allowIss, parse)) <==>
            if "exp" in form then parse(form["exp"]).Some? else NumericExp(base)
  {
  }

  lemma CopiedExp(base: Claims, subject: Claims, grant: string, actor: string)
    ensures NumericExp(Copied(base, subject, CopiedNames(grant))["act" := Actor(actor)]) <==> NumericExp(base)
  {
  }

  lemma ClientDecided(env: Env, issuer: string, req: Request)
    requires req.Field("grant_type") == "client_credentials"
    ensures var step := ClientGrant(env, issuer, EffectiveMode(env, issuer), req);
            if Identified(env, req).None? then step == Stop(Refused(401, "invalid_client"))
            else Decided(env, issuer, req, step)
  {
    if ClientAuthenticated(env, req) {
      PrincipalDecided(env, issuer, req, Target(req));
      var own := SpGrant(env, issuer, EffectiveMode(env, issuer), req, Target(req));
      if own.Go? {
        OverriddenExp(own.claims, req.Form(), env.principals[req.Field("client_id")].overrideIssToo, env.parse);
      }
    }
  }

  predicate Delegating(grant: string) {
    || grant == "urn:ietf:params:oauth:grant-type:token-exchange"
    || grant == "urn:ietf:params:oauth:grant-type:jwt-bearer"
  }

  lemma DelegateDecided(env: Env, issuer: string, req: Request, grant: string)
    requires grant == req.Field("grant_type") && Delegating(grant)
    ensures var step := DelegationGrant(env, issuer, EffectiveMode(env, issuer), req, grant);
            if Identified(env, req).None? then step == Stop(Refused(401, "invalid_client"))
            else if CheckSubject(env, req, grant).Rejected? then step == Stop(CheckSubject(env, req, grant).reply)
            else Decided(env, issuer, req, step)
  {
    if ClientAuthenticated(env, req) && CheckSubject(env, req, grant).Accepted? {
      PrincipalDecided(env, issuer, req, Target(req));
      var own := SpGrant(env, issuer, EffectiveMode(env, issuer), req, Target(req));
      if own.Go? {
        CopiedExp(own.claims, CheckSubject(env, req, grant).claims, grant,
                  env.principals[req.Field("client_id")].canonicalId);
      }
    }
  }

  /** No token without authority: whatever the grant, a token is granted only to an identity that gave
      its secret and, in strict mode, may have the audience; a delegation moreover only for a presented
      token that verifies against this issuer and is not expired. */
  lemma TokenOnlyForEntitled(env: Env, issuer: string, req: Request)
    requires FlatToken(env, issuer, req).Granted?
    ensures MayHaveToken(env, issuer, req)
    ensures Delegating(req.Field("grant_type")) ==>
              var presented := Presented(req, req.Field("grant_type"));
              && presented.Some?
              && Verify(presented.value, env.keys.Jwks()) == Some(presented.value.claims)
              && Expired(presented.value.claims, env.now) == Some(false)
  {
    var grant := req.Field("grant_type");
    if grant == "password" {
      UserDecided(env, issuer, req);
    } else if grant == "client_credentials" {
      ClientDecided(env, issuer, req);
    } else {
      DelegateDecided(env, issuer, req, grant);
      AcceptedSubject(env, req, grant);
    }
  }

  lemma AcceptedSubject(env: Env, req: Request, grant: string)
    ensures CheckSubject(env, req, grant).Accepted? <==>
            && Presented(req, grant).Some?
            && Verify(Presented(req, grant).value, env.keys.Jwks()) == Some(Presented(req, grant).value.claims)
            && Expired(Presented(req, grant).value.claims, env.now) == Some(false)
  {
  }

  /** A request that reaches its grant: not failed on purpose, by header or by fault, and of a known type. */
  predicate ReachesGrant(env: Env, req: Request) {
    && ("x-test-fail" in req.headers ==> req.headers["x-test-fail"] == "")
    && !(env.fault == Some(Error500) && env.strikes)
    && (req.Field("grant_type") in {"password", "client_credentials"} || Delegating(req.Field("grant_type")))
  }

  predicate SubjectAccepted(env: Env, req: Request) {
    Delegating(req.Field("grant_type")) ==> CheckSubject(env, req, req.Field("grant_type")).Accepted?
  }

  lemma DecidedRefusal(env: Env, issuer: string, req: Request, step: Step)
    requires Decided(env, issuer, req, step)
    ensures var reply := Close(env, req, req.Field("grant_type"), step, env.fault);
            && (reply.Refused? ==> reply.status == 400)
            && (reply == Refused(400, "invalid_target") <==> !MayHaveToken(env, issuer, req))
  {
  }

  /** And the refusals mean what they say: 401 exactly for wrong credentials, invalid_target exactly for
      an identified caller, with an acceptable subject if one is needed, who may not have the audience. */
  lemma RefusalsAreRight(env: Env, issuer: string, req: Request)
    requires ReachesGrant(env, req)
    ensures var reply := FlatToken(env, issuer, req);
            && (reply.Refused? && reply.status == 401 <==> Identified(env, req).None?)
            && (reply == Refused(400, "invalid_target") <==>
                  Identified(env, req).Some? && SubjectAccepted(env, req) && !MayHaveToken(env, issuer, req))
  {
    var grant, mode := req.Field("grant_type"), EffectiveMode(env, issuer);
    var step;
    if grant == "password" {
      step := UserGrant(env, issuer, mode, req);
      UserDecided(env, issuer, req);
    } else if grant == "client_credentials" {
      step := ClientGrant(env, issuer, mode, req);
      ClientDecided(env, issuer, req);
    } else {
      step := DelegationGrant(env, issuer, mode, req, grant);
      DelegateDecided(env, issuer, req, grant);
      if CheckSubject(env, req, grant).Rejected? {
        SubjectRefusals(env, req, grant);
      }
    }
    assert FlatToken(env, issuer, req) == Close(env, req, grant, step, env.fault);
    if Identified(env, req).Some? && SubjectAccepted(env, req) {
      DecidedRefusal(env, issuer, req, step);
    }
  }

  lemma SubjectRefusals(env: Env, req: Request, grant: string)
    requires CheckSubject(env, req, grant).Rejected?
    ensures var reply := CheckSubject(env, req, grant).reply;
            reply == Failed(None) || (reply.Refused? && reply.status == 400 && reply.error != "invalid_target")
  {
  }

  /** In strict mode a user is refused the target exactly if its app has no grant for the name, or, where
      no app is registered, the target is not on the user's list; */
  lemma StrictModeForUsers(env: Env, issuer: string, req: Request, user: User)
    requires ReachesGrant(env, req) && Strict(env, issuer) && Identified(env, req) == Some(OfUser(user))
    ensures FlatToken(env, issuer, req) == Refused(400, "invalid_target") <==>
            if Target(req) in env.apps then req.Field("username") !in env.apps[Target(req)].grants
            else Target(req) !in user.core.allowedAudiences
  {
    RefusalsAreRight(env, issuer, req);
  }

  /** a service principal without special rights, and with an acceptable subject if one is needed, exactly
      if there is no grant for its config key, or the target is not on its list. */
  lemma StrictModeForPrincipals(env: Env, issuer: string, req: Request, sp: Principal)
    requires ReachesGrant(env, req) && Strict(env, issuer) && Identified(env, req) == Some(OfPrincipal(sp))
    requires !sp.overrideAnyClaim && SubjectAccepted(env, req)
    ensures FlatToken(env, issuer, req) == Refused(400, "invalid_target") <==>
            if Target(req) in env.apps
            then (if sp.name == "" then req.Field("client_id") else sp.name) !in env.apps[Target(req)].grants
            else Target(req) !in sp.core.allowedAudiences
  {
    RefusalsAreRight(env, issuer, req);
  }

  /** A request that reaches no grant is refused for the first of these reasons that applies. */
  lemma UnreachedGrants(env: Env, issuer: string, req: Request)
    requires !ReachesGrant(env, req)
    ensures FlatToken(env, issuer, req) ==
            if "x-test-fail" in req.headers && req.headers["x-test-fail"] != "" then Refused(500, "server_error")
            else if env.fault == Some(Error500) && env.strikes then Refused(500, "chaos_error_500")
            else Refused(400, "unsupported_grant_type")
  {
  }

  /** The token presented for delegation: the subject of an exchange, the assertion of an on-behalf-of. */
  function Offered(req: Request): Option<Token> {
    if req.Field("grant_type") == "urn:ietf:params:oauth:grant-type:jwt-bearer" then req.assertion else req.subject
  }

  /** What becomes of the presented token, for an authenticated client: refused if missing, if it does not
      verify against this issuer, or if it is not current; accepted with its claims otherwise. */
  lemma SubjectDecided(env: Env, issuer: string, req: Request)
    requires ReachesGrant(env, req) && Delegating(req.Field("grant_type")) && Identified(env, req).Some?
    ensures var bearer := req.Field("grant_type") == "urn:ietf:params:oauth:grant-type:jwt-bearer";
            var reply := FlatToken(env, issuer, req);
            if Offered(req).None? then
              reply == Refused(400, if bearer then "invalid_request: assertion required"
                                    else "invalid_request: subject_token required")
            else
              match Verify(Offered(req).value, env.keys.Jwks())
              case None =>
                reply == Refused(400, if bearer then "invalid_grant: assertion signature invalid"
                                      else "invalid_request: subject_token signature invalid")
              case Some(claims) =>
                if Current(claims, env.now) then
                  CheckSubject(env, req, req.Field("grant_type")) == Accepted(claims)
                else if "exp" in claims && !claims["exp"].Num? then reply == Failed(None)
                else reply == Refused(400, if bearer then "invalid_grant: assertion is expired"
                                           else "invalid_request: subject_token is expired")
  {
  }

  // ── Token, reply and event agree ──────────────────────────────────────────

  /** The claims every successful grant arrives at before it signs. */
  lemma GrantedIsFinished(env: Env, issuer: string, req: Request) returns (built: Claims, alg: string)
    requires FlatToken(env, issuer, req).Granted?
    ensures FlatToken(env, issuer, req) == Finish(env, req, req.Field("grant_type"), built, alg, env.fault)
  {
    var grant, mode := req.Field("grant_type"), EffectiveMode(env, issuer);
    var step := if grant == "password" then UserGrant(env, issuer, mode, req)
                else if grant == "client_credentials" then ClientGrant(env, issuer, mode, req)
                else DelegationGrant(env, issuer, mode, req, grant);
    assert FlatToken(env, issuer, req) == Close(env, req, grant, step, env.fault);
    built, alg := step.claims, step.alg;
  }

  lemma CurrentKeyVerifies(made: seq<KeyName>, owner: string, ks: KeySet, alg: string, claims: Claims)
    requires SetInv(made, owner, ks)
    ensures Verify(Sign(claims, ks.SigningKeyForAlg(alg)), ks.Jwks()) == Some(claims)
  {
    VerifiesAtIssuer(made, owner, ks, Sign(claims, ks.SigningKeyForAlg(alg)));
    assert ks.Jwks()[0] == ks.signing && ks.Jwks()[1] == ks.ecSigning;
  }

  /** While no fault corrupts tokens, a granted token verifies at its issuer, its claims are those of
      the emitted event apart from the grant type, none of them is one that was to be omitted, and the
      reply tells the time left until its `exp`. */
  lemma TokenEventAndReplyAgree(made: seq<KeyName>, owner: string, env: Env, issuer: string, req: Request)
    returns (claims: Claims)
    requires SetInv(made, owner, env.keys) && Faultless(env.fault)
    requires FlatToken(env, issuer, req).Granted?
    ensures var reply := FlatToken(env, issuer, req);
            && Verify(reply.token, env.keys.Jwks()) == Some(claims) && reply.token.claims == claims
            && reply.event == claims["grant_type" := Str(req.Field("grant_type"))]
            && "exp" in claims && claims["exp"].Num?
            && reply.expiresIn == (if claims["exp"].n > env.now then claims["exp"].n - env.now else 0)
            && reply.exchanged == Delegating(req.Field("grant_type"))
            && reply.scope == (if Delegating(req.Field("grant_type")) then ""
                               else if "scope" in req.Form() then req.Form()["scope"] else "openid profile email")
    ensures Omitted(claims, Lookup(req.headers, "x-omit-claims")) == claims
  {
    var built, alg := GrantedIsFinished(env, issuer, req);
    claims := Omitted(built, Lookup(req.headers, "x-omit-claims"));
    FinishAgrees(env, req, req.Field("grant_type"), built, alg);
    CurrentKeyVerifies(made, owner, env.keys, alg, claims);
  }

  lemma FinishAgrees(env: Env, req: Request, grant: string, built: Claims, alg: string)
    requires Faultless(env.fault) && Finish(env, req, grant, built, alg, env.fault).Granted?
    ensures var reply := Finish(env, req, grant, built, alg, env.fault);
            var claims := Omitted(built, Lookup(req.headers, "x-omit-claims"));
            && reply.token == Sign(claims, env.keys.SigningKeyForAlg(alg))
            && reply.event == claims["grant_type" := Str(grant)] && NumericExp(claims)
            && reply.expiresIn == (if claims["exp"].n > env.now then claims["exp"].n - env.now else 0)
            && Omitted(claims, Lookup(req.headers, "x-omit-claims")) == claims
  {
  }

  /** Round trip: a granted token can be presented for delegation at its issuer, under the same keys,
      exactly until its `exp`. */
  lemma GrantedTokenCanBeDelegated(
      made: seq<KeyName>, owner: string, env: Env, issuer: string, req: Request,
      later: Env, next: Request, grant: string)
    requires SetInv(made, owner, env.keys) && Faultless(env.fault)
    requires FlatToken(env, issuer, req).Granted?
    requires later.keys == env.keys && Presented(next, grant) == Some(FlatToken(env, issuer, req).token)
    ensures var claims := FlatToken(env, issuer, req).token.claims;
            && "exp" in claims && claims["exp"].Num?
            && CheckSubject(later, next, grant) ==
               if later.now <= claims["exp"].n then Accepted(claims) else Rejected(TooOld(grant))
  {
    var claims := TokenEventAndReplyAgree(made, owner, env, issuer, req);
  }

  // ── When is a token granted? ──────────────────────────────────────────────

  predicate OmitsExp(req: Request) {
    "exp" in ParseList(GetOr(req.headers, "x-omit-claims", ""))
  }

  /** Whatever a grant has built, the event is emitted, but the reply needs a numeric `exp`. */
  lemma FinishNeedsExp(env: Env, req: Request, grant: string, built: Claims, alg: string, fault: Option<Fault>)
    ensures var reply := Finish(env, req, grant, built, alg, fault);
            if NumericExp(built) && !OmitsExp(req) then reply.Granted? else reply.Failed? && reply.emitted.Some?
  {
  }

  /** Exactly which requests of the shared handler are granted. An identified and entitled caller whose
      provider works is still refused a reply, after its event was emitted, if the request omits `exp`
      or overrides it with what is no number. */
  lemma GrantedExactlyWhen(env: Env, issuer: string, req: Request)
    requires ReachesGrant(env, req) && MayHaveToken(env, issuer, req) && SubjectAccepted(env, req)
    ensures var reply := FlatToken(env, issuer, req);
            match Base(env, issuer, req)
            case None => reply == Failed(None)
            case Some(base) =>
              && (reply.Granted? <==> !OmitsExp(req) && ExpIsNumeric(env, req, base))
              && (reply.Granted? || (reply.Failed? && reply.emitted.Some?))
  {
    var grant, mode := req.Field("grant_type"), EffectiveMode(env, issuer);
    var step;
    if grant == "password" {
      step := UserGrant(env, issuer, mode, req);
      UserDecided(env, issuer, req);
    } else if grant == "client_credentials" {
      step := ClientGrant(env, issuer, mode, req);
      ClientDecided(env, issuer, req);
    } else {
      step := DelegationGrant(env, issuer, mode, req, grant);
      DelegateDecided(env, issuer, req, grant);
    }
    assert FlatToken(env, issuer, req) == Close(env, req, grant, step, env.fault);
    if step.Go? {
      FinishNeedsExp(env, req, grant, step.claims, step.alg, env.fault);
    }
  }

  /** A configuration with one service principal that may override claims, under a provider that gives
      every token a numeric `exp`; the texts it meets below are no numbers. */
  function OneClient(keys: KeySet): Env {
    var core := Core("s", "v1", 3600, "RS256", [], [], "entra_id", [], [], "", [], map[]);
    Env(map[], map["c" := Principal(core, None, true, false, "c", "c")], map[],
        "lax", "lax", map[], keys, None, false, 0,
        (iss, user, aud, shape, life, roles, client) => None,
        (iss, sp, aud, shape, life, roles) => Some(map["sub" := Str("c"), "exp" := Num(life)]),
        text => None)
  }

  const CLIENT_FIELDS := [("grant_type", "client_credentials"), ("client_id", "c"), ("client_secret", "s")]

  lemma ClientForm()
    ensures FromPairs(CLIENT_FIELDS) ==
            map["grant_type" := "client_credentials", "client_id" := "c", "client_secret" := "s"]
  {
    FromPairsSnoc([], "grant_type", "client_credentials");
    FromPairsSnoc([("grant_type", "client_credentials")], "client_id", "c");
    FromPairsSnoc([("grant_type", "client_credentials"), ("client_id", "c")], "client_secret", "s");
    assert CLIENT_FIELDS == [("grant_type", "client_credentials"), ("client_id", "c")] + [("client_secret", "s")];
    assert [("grant_type", "client_credentials"), ("client_id", "c")]
           == [("grant_type", "client_credentials")] + [("client_id", "c")];
    assert [("grant_type", "client_credentials")] == [] + [("grant_type", "client_credentials")];
  }

  function ClientRequest(more: seq<(string, string)>, headers: map<string, string>): Request {
    Request(CLIENT_FIELDS + more, headers, None, None)
  }

  lemma OneClientIsServed(keys: KeySet, req: Request)
    requires Lookup(req.Form(), "grant_type") == Some("client_credentials")
    requires Lookup(req.Form(), "client_id") == Some("c") && Lookup(req.Form(), "client_secret") == Some("s")
    requires "x-test-fail" !in req.headers
    ensures var env, base := OneClient(keys), Base(OneClient(keys), "i", req);
            && base.Some? && NumericExp(base.value)
            && (FlatToken(env, "i", req).Granted? <==> !OmitsExp(req) && ExpIsNumeric(env, req, base.value))
            && (FlatToken(env, "i", req).Granted? || FlatToken(env, "i", req).Failed?)
  {
    GrantedExactlyWhen(OneClient(keys), "i", req);
  }

  lemma NothingOmittedByDefault(req: Request)
    requires "x-omit-claims" !in req.headers
    ensures !OmitsExp(req)
  {
    CleanItemsSurvive([]);
  }

  /** A plain request of this client is granted; */
  lemma PlainRequestIsGranted(keys: KeySet, req: Request)
    requires Lookup(req.Form(), "grant_type") == Some("client_credentials") && "exp" !in req.Form()
    requires Lookup(req.Form(), "client_id") == Some("c") && Lookup(req.Form(), "client_secret") == Some("s")
    requires "x-test-fail" !in req.headers && "x-omit-claims" !in req.headers
    ensures FlatToken(OneClient(keys), "i", req).Granted?
  {
    NothingOmittedByDefault(req);
    OneClientIsServed(keys, req);
  }

  lemma HeaderNamesExp()
    ensures "exp" in ParseList("exp")
  {
    CleanItemsSurvive(["exp"]);
  }

  /** it fails when a header, as the plain "exp" does, omits `exp`, */
  lemma OmittingExpFails(keys: KeySet, header: string)
    requires "exp" in ParseList(header)
    ensures FlatToken(OneClient(keys), "i", ClientRequest([], map["x-omit-claims" := header])).Failed?
  {
    ClientForm();
    assert CLIENT_FIELDS + [] == CLIENT_FIELDS;
    OneClientIsServed(keys, ClientRequest([], map["x-omit-claims" := header]));
  }

  /** and when it sets `exp` to a text that is no number. */
  lemma TextExpFails(keys: KeySet)
    ensures FlatToken(OneClient(keys), "i", ClientRequest([("exp", "soon")], map[])).Failed?
  {
    ClientForm();
    FromPairsSnoc(CLIENT_FIELDS, "exp", "soon");
    OneClientIsServed(keys, ClientRequest([("exp", "soon")], map[]));
  }

  // ── Request parameters ────────────────────────────────────────────────────

  /** Asking for the default scope of an audience asks for the audience; another scope is the audience
      itself; */
  lemma DefaultScopeNamesAudience(req: Request, aud: string)
    requires req.Field("resource") == ""
    requires req.Field("scope") == aud + "/.default"
             || (req.Field("scope") == aud != "" && !EndsWith(aud, "/.default"))
    ensures ResolveAud(req) == aud
  {
  }

  /** a resource overrides both, and without any there is a default. */
  lemma ResourceNamesAudience(req: Request)
    ensures req.Field("resource") != "" ==> ResolveAud(req) == req.Field("resource")
    ensures req.Field("resource") == "" && req.Field("scope") == "" ==> ResolveAud(req) == "api://default"
  {
  }

  /** The shape asked for by header, else told by the end of the client id, else configured, else v2. */
  lemma ShapeOfRequest(configured: string, req: Request, x: string)
    ensures var header, r := Lookup(req.headers, "x-token-shape"), ResolveShape(configured, req);
            if header == Some("v1") then r == "v1"
            else if header == Some("v2") then r == "v2"
            else
              && (req.Field("client_id") == x + "-v1" ==> r == "v1")
              && (req.Field("client_id") == x + "-v2" ==> r == "v2")
              && ((forall y :: req.Field("client_id") != y + "-v1" && req.Field("client_id") != y + "-v2") ==>
                    r == if configured == "" then "v2" else configured)
  {
    var id := req.Field("client_id");
    if EndsWith(id, "-v1") {
      assert id == id[..|id| - 3] + "-v1";
    } else if EndsWith(id, "-v2") {
      assert id == id[..|id| - 3] + "-v2";
    }
    assert (x + "-v1")[|x|..] == "-v1" && (x + "-v2")[|x|..] == "-v2";
  }

  /** The lifetime asked for by header, if it is a number, else configured, else an hour; a minute in the
      past when an expired token is asked for. */
  lemma LifetimeOfRequest(configured: int, req: Request, parse: ParseInt)
    ensures var r := ResolveExpiry(configured, req, parse);
            var wanted := Lookup(req.headers, "x-test-expires-in");
            if Lookup(req.headers, "x-test-expired") !in {None, Some("")} then r == -60
            else if wanted.Some? && parse(wanted.value).Some? then r == parse(wanted.value).value
            else r == if configured == 0 then 3600 else configured
  {
  }
}
