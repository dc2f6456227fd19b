/** The hosted token handler step by step (src/mock_idp/routers/hosted.py, hosted_token): its
    own copy of the grants, proved against the same meaning of a grant as the shared handler. */
module HostedHandler {
  import opened Wrappers
  import opened Keys
  import opened Tokens
  import opened Models
  import opened Roles
  import opened Overrides
  import opened Grants
  import opened Handlers

  method HostedPassword(env: Env, full: string, mode: string, req: Request) returns (reply: Reply)
    ensures reply == Close(env, req, "password", UserGrant(env, full, mode, req), None)
  {
    var form := req.Form();
    var aud := ResolveAud(req);
    var userKey := req.Field("username");
    var found := Lookup(env.users, userKey);
    if found.None? || Some(found.value.core.secret) != Lookup(form, "password") {
      return Refused(401, "invalid_grant");
    }
    var user := found.value;
    if !CheckAudience(userKey, OfUser(user), aud, mode, env.globalMode, env.apps) {
      return Refused(400, "invalid_target");
    }
    var shape := ResolveShape(user.core.tokenVersion, req);
    var expiresIn := ResolveExpiry(user.core.lifetime, req, env.parse);
    var roles := MergeRoles(userKey, OfUser(user), aud, env.apps);
    roles := RolesOverride(roles, Lookup(req.headers, "x-override-roles"));
    var base := env.userClaims(full, user, aud, shape, expiresIn, roles, Lookup(form, "client_id"));
    if base.None? {
      return Failed(None);
    }
    var claims := new Dict(base.value);
    reply := SignAndAnswer(env, req, "password", claims, user.core.signingAlg);
  }

  method HostedCredentials(env: Env, full: string, mode: string, req: Request) returns (reply: Reply)
    ensures reply == Close(env, req, "client_credentials", ClientGrant(env, full, mode, req), None)
  {
    var form := req.Form();
    var aud := ResolveAud(req);
    var spKey := req.Field("client_id");
    var found := Lookup(env.principals, spKey);
    if found.None? || Some(found.value.core.secret) != Lookup(form, "client_secret") {
      return Refused(401, "invalid_client");
    }
    var sp := found.value;
    if !CheckAudience(spKey, OfPrincipal(sp), aud, mode, env.globalMode, env.apps) {
      return Refused(400, "invalid_target");
    }
    var shape := ResolveShape(sp.core.tokenVersion, req);
    var expiresIn := ResolveExpiry(sp.core.lifetime, req, env.parse);
    var roles := MergeRoles(spKey, OfPrincipal(sp), aud, env.apps);
    roles := RolesOverride(roles, Lookup(req.headers, "x-override-roles"));
    var base := env.spClaims(full, sp, aud, shape, expiresIn, roles);
    if base.None? {
      return Failed(None);
    }
    var claims := new Dict(base.value);
    if sp.overrideAnyClaim {
      ApplyOverrides(claims, req.fields, sp.overrideIssToo, env.parse);
    }
    reply := SignAndAnswer(env, req, "client_credentials", claims, sp.core.signingAlg);
  }

  method HostedSubject(env: Env, req: Request) returns (subject: Subject)
    ensures subject == CheckSubject(env, req, EXCHANGE)
  {
    if req.subject.None? {
      return Rejected(Refused(400, "invalid_request: subject_token required"));
    }
    var jwks := env.keys.Jwks();
    var claims := Verify(req.subject.value, jwks);
    if claims.None? {
      return Rejected(Refused(400, "invalid_request: subject_token signature invalid"));
    }
    var expired := Expired(claims.value, env.now);
    if expired.None? {
      return Rejected(Failed(None));
    }
    if expired.value {
      return Rejected(Refused(400, "invalid_request: subject_token is expired"));
    }
    subject := Accepted(claims.value);
  }

  method HostedExchange(env: Env, full: string, mode: string, req: Request) returns (reply: Reply)
    ensures reply == Close(env, req, EXCHANGE, DelegationGrant(env, full, mode, req, EXCHANGE), None)
  {
    var form := req.Form();
    var spKey := req.Field("client_id");
    var found := Lookup(env.principals, spKey);
    if found.None? || Some(found.value.core.secret) != Lookup(form, "client_secret") {
      return Refused(401, "invalid_client");
    }
    var sp := found.value;
    var subject := HostedSubject(env, req);
    if subject.Rejected? {
      return subject.reply;
    }
    var aud := Or(req.Field("audience"), ResolveAud(req));
    if !CheckAudience(spKey, OfPrincipal(sp), aud, mode, env.globalMode, env.apps) {
      return Refused(400, "invalid_target");
    }
    var shape := ResolveShape(sp.core.tokenVersion, req);
    var expiresIn := ResolveExpiry(sp.core.lifetime, req, env.parse);
    var roles := MergeRoles(spKey, OfPrincipal(sp), aud, env.apps);
    roles := RolesOverride(roles, Lookup(req.headers, "x-override-roles"));
    var base := env.spClaims(full, sp, aud, shape, expiresIn, roles);
    if base.None? {
      return Failed(None);
    }
    var claims := new Dict(base.value);
    CopyClaims(claims, subject.claims, CopiedNames(EXCHANGE));
    claims.m := claims.m["act" := Actor(sp.canonicalId)];
    reply := SignExchanged(env, req, claims, sp.core.signingAlg);
  }

  method SignExchanged(env: Env, req: Request, claims: Dict<Value>, alg: string) returns (reply: Reply)
    modifies claims
    ensures reply == Finish(env, req, EXCHANGE, old(claims.m), alg, None)
  {
    Omit(claims, Lookup(req.headers, "x-omit-claims"));
    var token := Sign(claims.m, env.keys.SigningKeyForAlg(alg));
    var event := claims.m["grant_type" := Str(EXCHANGE)];
    if "exp" !in claims.m || !claims.m["exp"].Num? {
      return Failed(Some(event));
    }
    reply := Granted(token, Max0(claims.m["exp"].n - env.now), true, "", event);
  }

  method SignAndAnswer(env: Env, req: Request, grant: string, claims: Dict<Value>, alg: string) returns (reply: Reply)
    requires grant != EXCHANGE && grant != BEARER
    modifies claims
    ensures reply == Finish(env, req, grant, old(claims.m), alg, None)
  {
    Omit(claims, Lookup(req.headers, "x-omit-claims"));
    var token := Sign(claims.m, env.keys.SigningKeyForAlg(alg));
    var event := claims.m["grant_type" := Str(grant)];
    if "exp" !in claims.m || !claims.m["exp"].Num? {
      return Failed(Some(event));
    }
    reply := Granted(token, Max0(claims.m["exp"].n - env.now), false, Scope(req), event);
  }

  method HandleHostedToken(env: Env, org: string, issuer: string, req: Request) returns (reply: Reply)
    ensures reply == HostedToken(env, org, issuer, req)
  {
    if TestFail(req) {
      return Refused(500, "server_error");
    }
    var grant := req.Field("grant_type");
    var full := Scoped(org, issuer);
    var mode := EffectiveMode(env, issuer);
    if grant == "password" {
      reply := HostedPassword(env, full, mode, req);
    } else if grant == "client_credentials" {
      reply := HostedCredentials(env, full, mode, req);
    } else if grant == EXCHANGE {
      reply := HostedExchange(env, full, mode, req);
    } else {
      reply := Refused(400, "unsupported_grant_type");
    }
  }
}
