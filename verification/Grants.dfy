/** The token endpoint: the shared handler (src/mock_idp/token_handler.py, handle_token) and the
    hosted one that repeats it (src/mock_idp/routers/hosted.py, hosted_token). */
module Grants {
  import opened Wrappers
  import opened Keys
  import opened Tokens
  import opened Models
  import opened Roles
  import opened Overrides

  const EXCHANGE := "urn:ietf:params:oauth:grant-type:token-exchange"
  const BEARER := "urn:ietf:params:oauth:grant-type:jwt-bearer"

  /** The form fields and headers of a request; the two token-valued fields are kept apart, None
      when missing or blank. */
  datatype Request = Request(
    fields: seq<(string, string)>, headers: map<string, string>, subject: Option<Token>, assertion: Option<Token>)
  {
    function Form(): map<string, string> {
      FromPairs(fields)
    }

    function Field(name: string): string {
      GetOr(Form(), name, "")
    }
  }

  /** A provider builds the base claims; None is an unknown provider, an unhandled error. */
  type UserClaims = (string, User, string, string, int, seq<string>, Option<string>) -> Option<Claims>
  type SpClaims = (string, Principal, string, string, int, seq<string>) -> Option<Claims>

  /** All a request depends on: stores, client apps, modes, keys, fault, clock and providers.
      `strikes` is the outcome of the random draw of an error_500 fault. */
  datatype Env = Env(
    users: map<string, User>, principals: map<string, Principal>, apps: Apps,
    mode: string, globalMode: string, issuerModes: map<string, string>,
    keys: KeySet, fault: Option<Fault>, strikes: bool, now: int,
    userClaims: UserClaims, spClaims: SpClaims, parse: ParseInt)

  /** `event` and `emitted` are what goes to the webhooks and the audit log: also when the reply then fails on a
      missing or non-numeric `exp`. */
  datatype Reply =
    | Refused(status: nat, error: string)
    | Failed(emitted: Option<Claims>)
    | Granted(token: Token, expiresIn: int, exchanged: bool, scope: string, event: Claims)

  // ── Request parameters ────────────────────────────────────────────────────

  function Or(x: string, y: string): string {
    if x != "" then x else y
  }

  predicate EndsWith(s: string, suffix: string) {
    |suffix| <= |s| && s[|s| - |suffix|..] == suffix
  }

  function ResolveAud(req: Request): string {
    var scope := req.Field("scope");
    if req.Field("resource") != "" then req.Field("resource")
    else if scope == "" then "api://default"
    else if EndsWith(scope, "/.default") then scope[..|scope| - 9]
    else scope
  }

  function ResolveShape(configured: string, req: Request): string {
    var h := Lookup(req.headers, "x-token-shape");
    if h == Some("v1") || h == Some("v2") then h.value
    else if EndsWith(req.Field("client_id"), "-v1") then "v1"
    else if EndsWith(req.Field("client_id"), "-v2") then "v2"
    else Or(configured, "v2")
  }

  function ResolveExpiry(configured: int, req: Request, parse: ParseInt): int {
    var fallback := if configured != 0 then configured else 3600;
    if "x-test-expired" in req.headers && req.headers["x-test-expired"] != "" then -60
    else if "x-test-expires-in" in req.headers then
      var n := parse(req.headers["x-test-expires-in"]);
      if n.Some? then n.value else fallback
    else fallback
  }

  /** `issuer_modes.get(issuer) or mode` */
  function EffectiveMode(env: Env, issuer: string): string {
    Or(GetOr(env.issuerModes, issuer, ""), env.mode)
  }

  // ── Grants ────────────────────────────────────────────────────────────────

  /** Either a reply on its own, or claims to be signed. */
  datatype Step = Stop(reply: Reply) | Go(claims: Claims, alg: string)

  function UserGrant(env: Env, issuer: string, mode: string, req: Request): Step {
    var key := req.Field("username");
    if key !in env.users || Some(env.users[key].core.secret) != Lookup(req.Form(), "password") then
      Stop(Refused(401, "invalid_grant"))
    else
      var user := env.users[key];
      var aud := ResolveAud(req);
      if !CheckAudience(key, OfUser(user), aud, mode, env.globalMode, env.apps) then Stop(Refused(400, "invalid_target"))
      else
        var roles := RolesOverride(
                       ResolveRoles(key, OfUser(user), aud, env.apps), Lookup(req.headers, "x-override-roles"));
        match env.userClaims(issuer, user, aud, ResolveShape(user.core.tokenVersion, req),
                             ResolveExpiry(user.core.lifetime, req, env.parse), roles, Lookup(req.Form(), "client_id"))
        case None => Stop(Failed(None))
        case Some(claims) => Go(claims, user.core.signingAlg)
  }

  predicate ClientAuthenticated(env: Env, req: Request) {
    var key := req.Field("client_id");
    key in env.principals && Some(env.principals[key].core.secret) == Lookup(req.Form(), "client_secret")
  }

  /** The claims of the authenticated service principal for an audience. */
  function SpGrant(env: Env, issuer: string, mode: string, req: Request, aud: string): Step
    requires ClientAuthenticated(env, req)
  {
    var key := req.Field("client_id");
    var sp := env.principals[key];
    if !CheckAudience(key, OfPrincipal(sp), aud, mode, env.globalMode, env.apps) then Stop(Refused(400, "invalid_target"))
    else
      var roles := RolesOverride(
                     ResolveRoles(key, OfPrincipal(sp), aud, env.apps), Lookup(req.headers, "x-override-roles"));
      match env.spClaims(issuer, sp, aud, ResolveShape(sp.core.tokenVersion, req),
                         ResolveExpiry(sp.core.lifetime, req, env.parse), roles)
      case None => Stop(Failed(None))
      case Some(claims) => Go(claims, sp.core.signingAlg)
  }

  function ClientGrant(env: Env, issuer: string, mode: string, req: Request): Step {
    if !ClientAuthenticated(env, req) then Stop(Refused(401, "invalid_client"))
    else
      var sp := env.principals[req.Field("client_id")];
      match SpGrant(env, issuer, mode, req, ResolveAud(req))
      case Stop(reply) => Stop(reply)
      case Go(claims, alg) =>
        Go(if sp.overrideAnyClaim then Overridden(claims, req.Form(), sp.overrideIssToo, env.parse) else claims, alg)
  }

  /** The claims that follow the subject through token exchange and on-behalf-of. */
  const IDENTITY_CLAIMS := ["sub", "oid", "tid", "upn", "preferred_username", "unique_name", "name"]

  function Copied(claims: Claims, subject: Claims, names: seq<string>): Claims {
    claims + map c | c in subject && c in names :: subject[c]
  }

  function CopiedNames(grant: string): seq<string> {
    IDENTITY_CLAIMS + if grant == BEARER then ["scp"] else []
  }

  function Presented(req: Request, grant: string): Option<Token> {
    if grant == BEARER then req.assertion else req.subject
  }

  /** The 400 replies of the two delegation grants. */
  function Missing(grant: string): Reply {
    Refused(400, if grant == BEARER then "invalid_request: assertion required"
                 else "invalid_request: subject_token required")
  }

  function BadSignature(grant: string): Reply {
    Refused(400, if grant == BEARER then "invalid_grant: assertion signature invalid"
                 else "invalid_request: subject_token signature invalid")
  }

  function TooOld(grant: string): Reply {
    Refused(400, if grant == BEARER then "invalid_grant: assertion is expired"
                 else "invalid_request: subject_token is expired")
  }

  datatype Subject = Rejected(reply: Reply) | Accepted(claims: Claims)

  /** The presented token must verify against the issuer's published keys and not be expired. */
  function CheckSubject(env: Env, req: Request, grant: string): Subject {
    if Presented(req, grant).None? then Rejected(Missing(grant))
    else
      match Verify(Presented(req, grant).value, env.keys.Jwks())
      case None => Rejected(BadSignature(grant))
      case Some(claims) =>
        match Expired(claims, env.now)
        case None => Rejected(Failed(None))
        case Some(true) => Rejected(TooOld(grant))
        case Some(false) => Accepted(claims)
  }

  /** Token exchange (RFC 8693) and the on-behalf-of jwt-bearer grant. */
  function DelegationGrant(env: Env, issuer: string, mode: string, req: Request, grant: string): Step {
    if !ClientAuthenticated(env, req) then Stop(Refused(401, "invalid_client"))
    else
      match CheckSubject(env, req, grant)
      case Rejected(reply) => Stop(reply)
      case Accepted(subject) =>
        var aud := if grant == BEARER then ResolveAud(req) else Or(req.Field("audience"), ResolveAud(req));
        match SpGrant(env, issuer, mode, req, aud)
        case Stop(reply) => Stop(reply)
        case Go(claims, alg) =>
          var sp := env.principals[req.Field("client_id")];
          Go(Copied(claims, subject, CopiedNames(grant))["act" := Actor(sp.canonicalId)], alg)
  }

  // ── Replies ───────────────────────────────────────────────────────────────

  function Max0(n: int): int {
    if n < 0 then 0 else n
  }

  function Scope(req: Request): string {
    GetOr(req.Form(), "scope", "openid profile email")
  }

  /** Omits claims, signs, emits the event and answers; `fault` may corrupt the token. */
  function Finish(env: Env, req: Request, grant: string, built: Claims, alg: string, fault: Option<Fault>): Reply {
    var claims := Omitted(built, Lookup(req.headers, "x-omit-claims"));
    var token := CorruptOrSign(claims, fault, env.keys, alg, env.now);
    var event := claims["grant_type" := Str(grant)];
    var exchanged := grant == EXCHANGE || grant == BEARER;
    if "exp" in claims && claims["exp"].Num? then
      Granted(token, Max0(claims["exp"].n - env.now), exchanged, if exchanged then "" else Scope(req), event)
    else Failed(Some(event))
  }

  function Close(env: Env, req: Request, grant: string, step: Step, fault: Option<Fault>): Reply {
    match step
    case Stop(reply) => reply
    case Go(claims, alg) => Finish(env, req, grant, claims, alg, fault)
  }

  predicate TestFail(req: Request) {
    "x-test-fail" in req.headers && req.headers["x-test-fail"] != ""
  }

  /** The shared handler, run on the full issuer string. */
  function FlatToken(env: Env, issuer: string, req: Request): Reply {
    var grant := req.Field("grant_type");
    var mode := EffectiveMode(env, issuer);
    if TestFail(req) then Refused(500, "server_error")
    else if env.fault == Some(Error500) && env.strikes then Refused(500, "chaos_error_500")
    else if grant == "password" then Close(env, req, grant, UserGrant(env, issuer, mode, req), env.fault)
    else if grant == "client_credentials" then Close(env, req, grant, ClientGrant(env, issuer, mode, req), env.fault)
    else if grant == EXCHANGE || grant == BEARER then
      Close(env, req, grant, DelegationGrant(env, issuer, mode, req, grant), env.fault)
    else Refused(400, "unsupported_grant_type")
  }

  /** The hosted handler: modes by the bare issuer slug, claims for the full issuer, no faults. */
  function HostedToken(env: Env, org: string, issuer: string, req: Request): Reply {
    var grant := req.Field("grant_type");
    var mode := EffectiveMode(env, issuer);
    var full := Scoped(org, issuer);
    if TestFail(req) then Refused(500, "server_error")
    else if grant == "password" then Close(env, req, grant, UserGrant(env, full, mode, req), None)
    else if grant == "client_credentials" then Close(env, req, grant, ClientGrant(env, full, mode, req), None)
    else if grant == EXCHANGE then Close(env, req, grant, DelegationGrant(env, full, mode, req, grant), None)
    else Refused(400, "unsupported_grant_type")
  }
}
