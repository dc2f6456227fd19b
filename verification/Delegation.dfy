/** What holds across grants: delegation chains (section 4.1 of RFC 8693), and the agreement of
    the hosted handler with the shared one. */
module Delegation {
  import opened Wrappers
  import opened Text
  import opened Keys
  import opened Tokens
  import opened Overrides
  import opened Grants

  /** One delegation request and everything it depends on: stores, keys, faults and clock may
      differ from hop to hop. */
  datatype Hop = Hop(env: Env, issuer: string, req: Request)
  {
    function Grant(): string {
      req.Field("grant_type")
    }

    function Reply(): Reply {
      FlatToken(env, issuer, req)
    }

    function OmittedNames(): seq<string> {
      ParseList(if "x-omit-claims" in req.headers then req.headers["x-omit-claims"] else "")
    }

    /** Succeeds, and was asked to delegate this token. */
    predicate Delegates(token: Token) {
      && (Grant() == "urn:ietf:params:oauth:grant-type:token-exchange"
          || Grant() == "urn:ietf:params:oauth:grant-type:jwt-bearer")
      && Presented(req, Grant()) == Some(token)
      && Reply().Granted?
    }
  }

  /** What a successful hop signs: the claims of the acting client, overlaid with the copied
      claims of the presented token and the actor, less the omitted ones. */
  lemma {:induction false} HopSigns(hop: Hop, token: Token) returns (base: Claims, alg: string)
    requires hop.Delegates(token)
    ensures token.Signed? && Verify(token, hop.env.keys.Jwks()) == Some(token.claims)
    ensures ClientAuthenticated(hop.env, hop.req)
    ensures hop.Reply().token ==
            CorruptOrSign(Without(DelegatedClaims(hop, base, token.claims), hop.OmittedNames()),
                          hop.env.fault, hop.env.keys, alg, hop.env.now)
  {
    var mode := EffectiveMode(hop.env, hop.issuer);
    var step := DelegationGrant(hop.env, hop.issuer, mode, hop.req, hop.Grant());
    assert hop.Reply() == Close(hop.env, hop.req, hop.Grant(), step, hop.env.fault);
    base, alg := GoesOn(hop, token, mode);
    FinishSigns(hop.env, hop.req, hop.Grant(), step.claims, alg, hop.env.fault);
  }

  lemma GoesOn(hop: Hop, token: Token, mode: string) returns (base: Claims, alg: string)
    requires Presented(hop.req, hop.Grant()) == Some(token)
    requires DelegationGrant(hop.env, hop.issuer, mode, hop.req, hop.Grant()).Go?
    ensures token.Signed? && Verify(token, hop.env.keys.Jwks()) == Some(token.claims)
    ensures ClientAuthenticated(hop.env, hop.req)
    ensures DelegationGrant(hop.env, hop.issuer, mode, hop.req, hop.Grant())
            == Go(DelegatedClaims(hop, base, token.claims), alg)
  {
    var aud := if hop.Grant() == BEARER then ResolveAud(hop.req) else Or(hop.req.Field("audience"), ResolveAud(hop.req));
    var own := SpGrant(hop.env, hop.issuer, mode, hop.req, aud);
    base, alg := own.claims, own.alg;
  }

  lemma FinishSigns(env: Env, req: Request, grant: string, built: Claims, alg: string, fault: Option<Fault>)
    requires Finish(env, req, grant, built, alg, fault).Granted?
    ensures Finish(env, req, grant, built, alg, fault).token ==
            CorruptOrSign(Omitted(built, Lookup(req.headers, "x-omit-claims")), fault, env.keys, alg, env.now)
  {
  }

  function ActingClient(hop: Hop): string
    requires ClientAuthenticated(hop.env, hop.req)
  {
    hop.env.principals[hop.req.Field("client_id")].canonicalId
  }

  function DelegatedClaims(hop: Hop, base: Claims, subject: Claims): Claims
    requires ClientAuthenticated(hop.env, hop.req)
  {
    Copied(base, subject, CopiedNames(hop.Grant()))["act" := Actor(ActingClient(hop))]
  }

  lemma SignedClaims(built: Claims, names: seq<string>, fault: Option<Fault>, ks: KeySet, alg: string, now: int, c: string)
    requires c != "exp"
    ensures Lookup(CorruptOrSign(Without(built, names), fault, ks, alg, now).claims, c)
            == if c in names then None else Lookup(built, c)
  {
  }

  /** The seven identity claims follow the subject; on behalf of a user, so does `scp`. */
  predicate Follows(c: string, grant: string) {
    || c in {"sub", "oid", "tid", "upn", "preferred_username", "unique_name", "name"}
    || (c == "scp" && grant == "urn:ietf:params:oauth:grant-type:jwt-bearer")
  }

  lemma FollowsSubject(hop: Hop, base: Claims, subject: Claims, c: string)
    requires ClientAuthenticated(hop.env, hop.req)
    requires Follows(c, hop.Grant()) && c in subject
    ensures c != "exp" && Lookup(DelegatedClaims(hop, base, subject), c) == Some(subject[c])
  {
  }

  /** A successful hop carries a claim that follows the subject unchanged, exactly unless the
      request's X-Omit-Claims header names it, and names the acting client as the only actor. */
  lemma {:induction false} HopClaims(hop: Hop, token: Token, c: string)
    requires hop.Delegates(token)
    ensures Follows(c, hop.Grant()) && token.Signed? && c in token.claims ==>
              Lookup(hop.Reply().token.claims, c)
              == if c in hop.OmittedNames() then None else Some(token.claims[c])
    ensures ClientAuthenticated(hop.env, hop.req)
    ensures Lookup(hop.Reply().token.claims, "act")
            == if "act" in hop.OmittedNames() then None else Some(Actor(ActingClient(hop)))
  {
    var base, alg := HopSigns(hop, token);
    var built := DelegatedClaims(hop, base, token.claims);
    SignedClaims(built, hop.OmittedNames(), hop.env.fault, hop.env.keys, alg, hop.env.now, "act");
    if Follows(c, hop.Grant()) && c in token.claims {
      FollowsSubject(hop, base, token.claims, c);
      SignedClaims(built, hop.OmittedNames(), hop.env.fault, hop.env.keys, alg, hop.env.now, c);
    }
  }

  // ── Chains ────────────────────────────────────────────────────────────────

  predicate Leads(before: Token, hop: Hop, after: Token) {
    hop.Delegates(before) && hop.Reply().token == after
  }

  /** The tokens in hand before and after each hop: every hop presents the token the hop before it
      was granted. */
  ghost predicate Chain(tokens: seq<Token>, hops: seq<Hop>) {
    && |tokens| == |hops| + 1
    && forall n :: 0 <= n < |hops| ==> Leads(tokens[n], hops[n], tokens[n + 1])
  }

  /** The same without an X-Omit-Claims header. */
  lemma {:induction false} PlainHopClaims(hop: Hop, token: Token, c: string)
    requires hop.Delegates(token) && "x-omit-claims" !in hop.req.headers
    ensures token.Signed? && ClientAuthenticated(hop.env, hop.req)
    ensures Follows(c, "") && c in token.claims ==> Lookup(hop.Reply().token.claims, c) == Some(token.claims[c])
    ensures Lookup(hop.Reply().token.claims, "act") == Some(Actor(ActingClient(hop)))
  {
    var base, alg := HopSigns(hop, token);
    HopClaims(hop, token, c);
    assert hop.OmittedNames() == [];
  }

  predicate NothingOmitted(hops: seq<Hop>) {
    forall n :: 0 <= n < |hops| ==> "x-omit-claims" !in hops[n].req.headers
  }

  predicate Carried(a: Token, b: Token, c: string) {
    c in a.claims ==> c in b.claims && b.claims[c] == a.claims[c]
  }

  lemma {:induction false} HopCarries(tokens: seq<Token>, hops: seq<Hop>, n: nat, c: string)
    requires Chain(tokens, hops) && NothingOmitted(hops) && n < |hops| && Follows(c, "")
    ensures Carried(tokens[n], tokens[n + 1], c)
  {
    assert Leads(tokens[n], hops[n], tokens[n + 1]);
    PlainHopClaims(hops[n], tokens[n], c);
  }

  lemma {:induction false} CarriedOn(tokens: seq<Token>, m: nat, n: nat, c: string)
    requires forall k :: 0 <= k < |tokens| - 1 ==> Carried(tokens[k], tokens[k + 1], c)
    requires m <= n < |tokens|
    ensures Carried(tokens[m], tokens[n], c)
    decreases n
  {
    if m < n {
      CarriedOn(tokens, m, n - 1, c);
      assert Carried(tokens[n - 1], tokens[n - 1 + 1], c);
    }
  }

  /** Along any chain of successful hops without X-Omit-Claims, each identity claim keeps the value
      it had when it first appeared, in whichever token of the chain that was. */
  lemma IdentityClaimsSurvive(tokens: seq<Token>, hops: seq<Hop>, m: nat, n: nat, c: string)
    requires Chain(tokens, hops) && NothingOmitted(hops) && m <= n <= |hops|
    requires c in {"sub", "oid", "tid", "upn", "preferred_username", "unique_name", "name"} && c in tokens[m].claims
    ensures c in tokens[n].claims && tokens[n].claims[c] == tokens[m].claims[c]
  {
    forall k | 0 <= k < |tokens| - 1 ensures Carried(tokens[k], tokens[k + 1], c) {
      HopCarries(tokens, hops, k, c);
    }
    CarriedOn(tokens, m, n, c);
  }

  /** The actor of every token is the client of the hop that got it, alone: earlier actors are not kept. */
  lemma {:induction false} ActorIsLastClient(tokens: seq<Token>, hops: seq<Hop>, n: nat)
    requires Chain(tokens, hops) && NothingOmitted(hops) && 0 < n <= |hops|
    ensures ClientAuthenticated(hops[n - 1].env, hops[n - 1].req)
    ensures Lookup(tokens[n].claims, "act") == Some(Actor(ActingClient(hops[n - 1])))
  {
    assert Leads(tokens[n - 1], hops[n - 1], tokens[n]);
    PlainHopClaims(hops[n - 1], tokens[n - 1], "act");
  }

  // ── The hosted handler ────────────────────────────────────────────────────

  /** Stores, keys and effective mode correspond; the shared handler runs without a fault. */
  ghost predicate Correspond(flat: Env, hosted: Env, org: string, issuer: string) {
    && SameForGrants(flat, hosted)
    && EffectiveMode(flat, org + "/" + issuer) == EffectiveMode(hosted, issuer)
  }

  /** The environments a grant cannot tell apart: once the effective mode is chosen, the mode tables
      and the fault are not looked at. */
  ghost predicate SameForGrants(flat: Env, hosted: Env) {
    flat == hosted.(mode := flat.mode, issuerModes := flat.issuerModes, fault := None)
  }

  lemma UsersCorrespond(flat: Env, hosted: Env, full: string, mode: string, req: Request)
    requires SameForGrants(flat, hosted)
    ensures UserGrant(flat, full, mode, req) == UserGrant(hosted, full, mode, req)
  {
  }

  lemma ClientsCorrespond(flat: Env, hosted: Env, full: string, mode: string, req: Request)
    requires SameForGrants(flat, hosted)
    ensures ClientGrant(flat, full, mode, req) == ClientGrant(hosted, full, mode, req)
  {
  }

  lemma ExchangesCorrespond(flat: Env, hosted: Env, full: string, mode: string, req: Request)
    requires SameForGrants(flat, hosted)
    ensures DelegationGrant(flat, full, mode, req, EXCHANGE) == DelegationGrant(hosted, full, mode, req, EXCHANGE)
  {
    assert CheckSubject(flat, req, EXCHANGE) == CheckSubject(hosted, req, EXCHANGE);
    if ClientAuthenticated(flat, req) {
      PrincipalsCorrespond(flat, hosted, full, mode, req, Or(req.Field("audience"), ResolveAud(req)));
    }
  }

  lemma PrincipalsCorrespond(flat: Env, hosted: Env, full: string, mode: string, req: Request, aud: string)
    requires SameForGrants(flat, hosted) && ClientAuthenticated(flat, req)
    ensures ClientAuthenticated(hosted, req)
    ensures SpGrant(flat, full, mode, req, aud) == SpGrant(hosted, full, mode, req, aud)
  {
  }

  lemma RepliesCorrespond(flat: Env, hosted: Env, req: Request, grant: string, step: Step)
    requires SameForGrants(flat, hosted)
    ensures Close(flat, req, grant, step, None) == Close(hosted, req, grant, step, None)
  {
  }

  /** For every request but the on-behalf-of grant, which it does not offer, the hosted handler
      gives the reply, and emits the event, of the shared handler on the full issuer string. */
  lemma {:induction false} HostedAgreesWithShared(flat: Env, hosted: Env, org: string, issuer: string, req: Request)
    requires Correspond(flat, hosted, org, issuer)
    ensures HostedToken(hosted, org, issuer, req) ==
            if req.Field("grant_type") == "urn:ietf:params:oauth:grant-type:jwt-bearer" && !TestFail(req)
            then Refused(400, "unsupported_grant_type")
            else FlatToken(flat, org + "/" + issuer, req)
  {
    var full, mode, grant := Scoped(org, issuer), EffectiveMode(hosted, issuer), req.Field("grant_type");
    if grant == "password" {
      UsersCorrespond(flat, hosted, full, mode, req);
      RepliesCorrespond(flat, hosted, req, grant, UserGrant(flat, full, mode, req));
    } else if grant == "client_credentials" {
      ClientsCorrespond(flat, hosted, full, mode, req);
      RepliesCorrespond(flat, hosted, req, grant, ClientGrant(flat, full, mode, req));
    } else if grant == EXCHANGE {
      ExchangesCorrespond(flat, hosted, full, mode, req);
      RepliesCorrespond(flat, hosted, req, grant, DelegationGrant(flat, full, mode, req, grant));
    }
  }
}
