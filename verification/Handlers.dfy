/** The shared token handler step by step, on a claims dictionary that is updated in place
    (src/mock_idp/token_handler.py). */
module Handlers {
  import opened Wrappers
  import opened Tokens
  import opened Models
  import opened Roles
  import opened Overrides
  import opened Grants

  lemma CopyOneMore(claims: Claims, subject: Claims, names: seq<string>, n: nat)
    requires n < |names|
    ensures var done := Copied(claims, subject, names[..n]);
            Copied(claims, subject, names[..n + 1])
            == if names[n] in subject then done[names[n] := subject[names[n]]] else done
  {
  }

  /** The loop `for _c in names: if _c in subject: claims[_c] = subject[_c]`. */
  method CopyClaims(claims: Dict<Value>, subject: Claims, names: seq<string>)
    modifies claims
    ensures claims.m == Copied(old(claims.m), subject, names)
  {
    ghost var before := claims.m;
    var n := 0;
    while n < |names|
      invariant 0 <= n <= |names|
      invariant claims.m == Copied(before, subject, names[..n])
    {
      CopyOneMore(before, subject, names, n);
      if names[n] in subject {
        claims.m := claims.m[names[n] := subject[names[n]]];
      }
      n := n + 1;
    }
    assert names[..n] == names;
  }

  /** Omit, sign, emit, answer: the common end of every grant. */
  method Answer(env: Env, req: Request, grant: string, claims: Dict<Value>, alg: string, fault: Option<Fault>)
    returns (reply: Reply)
    modifies claims
    ensures reply == Finish(env, req, grant, old(claims.m), alg, fault)
  {
    Omit(claims, Lookup(req.headers, "x-omit-claims"));
    var token := CorruptOrSign(claims.m, fault, env.keys, alg, env.now);
    var event := claims.m["grant_type" := Str(grant)];
    if "exp" !in claims.m || !claims.m["exp"].Num? {
      return Failed(Some(event));
    }
    var expiresIn := Max0(claims.m["exp"].n - env.now);
    if grant == EXCHANGE || grant == BEARER {
      reply := Granted(token, expiresIn, true, "", event);
    } else {
      reply := Granted(token, expiresIn, false, Scope(req), event);
    }
  }

  method PasswordGrant(env: Env, issuer: string, mode: string, req: Request, fault: Option<Fault>)
    returns (reply: Reply)
    ensures reply == Close(env, req, "password", UserGrant(env, issuer, mode, req), fault)
  {
    var form := req.Form();
    var userKey := req.Field("username");
    if userKey !in env.users {
      return Refused(401, "invalid_grant");
    }
    var user := env.users[userKey];
    if Some(user.core.secret) != Lookup(form, "password") {
      return Refused(401, "invalid_grant");
    }
    var aud := ResolveAud(req);
    if !CheckAudience(userKey, OfUser(user), aud, mode, env.globalMode, env.apps) {
      return Refused(400, "invalid_target");
    }
    var shape := ResolveShape(user.core.tokenVersion, req);
    var expiresIn := ResolveExpiry(user.core.lifetime, req, env.parse);
    var merged := MergeRoles(userKey, OfUser(user), aud, env.apps);
    var roles := RolesOverride(merged, Lookup(req.headers, "x-override-roles"));
    var base := env.userClaims(issuer, user, aud, shape, expiresIn, roles, Lookup(form, "client_id"));
    if base.None? {
      return Failed(None);
    }
    var claims := new Dict(base.value);
    reply := Answer(env, req, "password", claims, user.core.signingAlg, fault);
  }

  /** The claims of an authenticated service principal, as a new dictionary, or an early reply. */
  method PrincipalClaims(env: Env, issuer: string, mode: string, req: Request, aud: string)
    returns (early: Option<Reply>, claims: Dict<Value>)
    requires ClientAuthenticated(env, req)
    ensures fresh(claims)
    ensures match SpGrant(env, issuer, mode, req, aud)
            case Stop(reply) => early == Some(reply)
            case Go(built, _) => early == None && claims.m == built
  {
    claims := new Dict(map[]);
    var spKey := req.Field("client_id");
    var sp := env.principals[spKey];
    if !CheckAudience(spKey, OfPrincipal(sp), aud, mode, env.globalMode, env.apps) {
      early := Some(Refused(400, "invalid_target"));
      return;
    }
    var shape := ResolveShape(sp.core.tokenVersion, req);
    var expiresIn := ResolveExpiry(sp.core.lifetime, req, env.parse);
    var merged := MergeRoles(spKey, OfPrincipal(sp), aud, env.apps);
    var roles := RolesOverride(merged, Lookup(req.headers, "x-override-roles"));
    var base := env.spClaims(issuer, sp, aud, shape, expiresIn, roles);
    if base.None? {
      early := Some(Failed(None));
      return;
    }
    claims.m := base.value;
    early := None;
  }

  method CredentialsGrant(env: Env, issuer: string, mode: string, req: Request, fault: Option<Fault>)
    returns (reply: Reply)
    ensures reply == Close(env, req, "client_credentials", ClientGrant(env, issuer, mode, req), fault)
  {
    if !ClientAuthenticated(env, req) {
      return Refused(401, "invalid_client");
    }
    var sp := env.principals[req.Field("client_id")];
    var early, claims := PrincipalClaims(env, issuer, mode, req, ResolveAud(req));
    if early.Some? {
      return early.value;
    }
    if sp.overrideAnyClaim {
      ApplyOverrides(claims, req.fields, sp.overrideIssToo, env.parse);
    }
    reply := Answer(env, req, "client_credentials", claims, sp.core.signingAlg, fault);
  }

  method SubjectClaims(env: Env, req: Request, grant: string) returns (subject: Subject)
    ensures subject == CheckSubject(env, req, grant)
  {
    var presented := Presented(req, grant);
    if presented.None? {
      return Rejected(Missing(grant));
    }
    var claims := Verify(presented.value, env.keys.Jwks());
    if claims.None? {
      return Rejected(BadSignature(grant));
    }
    var expired := Expired(claims.value, env.now);
    if expired.None? {
      return Rejected(Failed(None));
    }
    if expired.value {
      return Rejected(TooOld(grant));
    }
    subject := Accepted(claims.value);
  }

  method DelegatedGrant(env: Env, issuer: string, mode: string, req: Request, grant: string, fault: Option<Fault>)
    returns (reply: Reply)
    ensures reply == Close(env, req, grant, DelegationGrant(env, issuer, mode, req, grant), fault)
  {
    if !ClientAuthenticated(env, req) {
      return Refused(401, "invalid_client");
    }
    var subject := SubjectClaims(env, req, grant);
    if subject.Rejected? {
      return subject.reply;
    }
    var sp := env.principals[req.Field("client_id")];
    var aud := ResolveAud(req);
    if grant != BEARER {
      aud := Or(req.Field("audience"), aud);
    }
    var early, claims := PrincipalClaims(env, issuer, mode, req, aud);
    if early.Some? {
      return early.value;
    }
    CopyClaims(claims, subject.claims, CopiedNames(grant));
    claims.m := claims.m["act" := Actor(sp.canonicalId)];
    reply := Answer(env, req, grant, claims, sp.core.signingAlg, fault);
  }

  method HandleToken(env: Env, issuer: string, req: Request) returns (reply: Reply)
    ensures reply == FlatToken(env, issuer, req)
  {
    if TestFail(req) {
      return Refused(500, "server_error");
    }
    if env.fault == Some(Error500) && env.strikes {
      return Refused(500, "chaos_error_500");
    }
    var grant := req.Field("grant_type");
    var mode := EffectiveMode(env, issuer);
    if grant == "password" {
      reply := PasswordGrant(env, issuer, mode, req, env.fault);
    } else if grant == "client_credentials" {
      reply := CredentialsGrant(env, issuer, mode, req, env.fault);
    } else if grant == EXCHANGE {
      reply := DelegatedGrant(env, issuer, mode, req, EXCHANGE, env.fault);
    } else if grant == BEARER {
      reply := DelegatedGrant(env, issuer, mode, req, BEARER, env.fault);
    } else {
      reply := Refused(400, "unsupported_grant_type");
    }
  }
}
