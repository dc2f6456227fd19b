/** The configured identities (src/mock_idp/models.py). The fields with a leading underscore
    there are the ones a store fills in while loading. */
module Models {
  import opened Wrappers
  import opened Tokens

  /** What users and service principals have in common; `secret` is the user's password. */
  datatype Core = Core(
    secret: string, tokenVersion: string, lifetime: int, signingAlg: string,
    realmRoles: seq<string>, tenantRealmRoles: seq<string>, provider: string,
    roles: seq<string>, groups: seq<string>, tid: string, allowedAudiences: seq<string>, extra: Claims)

  datatype User = User(core: Core, upn: Option<string>, preferredUsername: Option<string>, oid: string)

  datatype Principal = Principal(
    core: Core, clientId: Option<string>, overrideAnyClaim: bool, overrideIssToo: bool,
    canonicalId: string, name: string)

  datatype App = App(appId: Option<string>, roles: seq<string>, grants: map<string, seq<string>>)

  datatype Identity = OfUser(user: User) | OfPrincipal(sp: Principal)
  {
    function Core(): Core {
      if OfUser? then user.core else sp.core
    }
  }

  datatype Tenant = Tenant(
    provider: string, realmRoles: seq<string>,
    users: seq<(string, User)>, principals: seq<(string, Principal)>, clients: seq<(string, App)>)

  /** A validated configuration; the pairs are dictionaries in document order. */
  datatype AppConfig = AppConfig(
    authMode: string, corsAllowOrigins: seq<string>, adminToken: string,
    issuerModes: map<string, string>, webhooks: seq<string>, tenants: seq<(string, Tenant)>)
}
