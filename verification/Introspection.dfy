/** Token introspection (src/mock_idp/token_handler.py, handle_introspect) and its
    behaviour over whole runs: an inactive token stays inactive (section 2.2 of RFC 7662). */
module Introspection {
  import opened Wrappers
  import opened Keys
  import opened Tokens
  import opened Stores
  import opened Lifecycle

  const PASS_THROUGH := {
    "sub", "iss", "aud", "exp", "iat", "nbf", "jti", "scope",
    "azp", "preferred_username", "name", "upn", "roles", "groups",
    "scp", "tid", "appid", "ver"}

  /** `InvalidClient` and `InvalidRequest` are the 401 and 400 replies; `TypeFault` is the unhandled
      type error of comparing a non-numeric `exp` with the clock. */
  datatype Verdict =
    | InvalidClient
    | InvalidRequest
    | TypeFault
    | Inactive
    | Active(passed: Claims, clientId: Option<Value>)

  /** The caller as looked up in the identity store: does its secret match, and is its id
      also the audience of a registered client app? */
  datatype Caller = Caller(id: string, authenticated: bool, isClientApp: bool)

  predicate HasAudience(claims: Claims, audience: string) {
    "aud" in claims &&
    match claims["aud"]
    case Strs(items) => audience in items
    case Str(s) => s != "" && s == audience
    case _ => false
  }

  function Introspect(caller: Caller, token: Option<Token>, jwks: seq<Key>, now: int): Verdict {
    if !caller.authenticated then InvalidClient
    else if token.None? then InvalidRequest
    else
      match Verify(token.value, jwks)
      case None => Inactive
      case Some(claims) =>
        match Expired(claims, now)
        case None => TypeFault
        case Some(true) => Inactive
        case Some(false) =>
          if caller.isClientApp && !HasAudience(claims, caller.id) then Inactive
          else Active(map c | c in claims && c in PASS_THROUGH :: claims[c], Lookup(claims, "azp"))
  }

  method HandleIntrospect(caller: Caller, token: Option<Token>, jwks: seq<Key>, now: int) returns (reply: Verdict)
    ensures reply == Introspect(caller, token, jwks, now)
    ensures reply.Active? ==> Verify(token.value, jwks).Some? && "client_id" !in reply.passed
  {
    if !caller.authenticated {
      return InvalidClient;
    }
    if token.None? {
      return InvalidRequest;
    }
    var verified := Verify(token.value, jwks);
    if verified.None? {
      return Inactive;
    }
    var claims := verified.value;
    var expired := Expired(claims, now);
    if expired.None? {
      return TypeFault;
    }
    if expired.value {
      return Inactive;
    }
    if caller.isClientApp && !HasAudience(claims, caller.id) {
      return Inactive;
    }
    var response: Claims := map[];
    var todo := claims.Keys;
    while todo != {}
      invariant todo <= claims.Keys
      invariant response == map c | c in claims && c !in todo && c in PASS_THROUGH :: claims[c]
      decreases todo
    {
      var c :| c in todo;
      todo := todo - {c};
      if c in PASS_THROUGH {
        response := response[c := claims[c]];
      }
    }
    reply := Active(response, Lookup(claims, "azp"));
  }

  // ── The verdict, spelled out on the claims ────────────────────────────────

  /** The token is for this audience: alone, or in a list. */
  predicate MeantFor(claims: Claims, id: string) {
    && "aud" in claims
    && ((claims["aud"] == Str(id) && id != "") || (claims["aud"].Strs? && id in claims["aud"].items))
  }

  /** Which caller gets which verdict on which token. A client app sees a token as active exactly if the
      token is meant for it; any other authenticated caller sees every current token as active. */
  lemma VerdictExactlyWhen(caller: Caller, token: Option<Token>, jwks: seq<Key>, now: int)
    ensures var v, known := Introspect(caller, token, jwks, now), token.Some? && Verify(token.value, jwks).Some?;
            && (v == InvalidClient <==> !caller.authenticated)
            && (v == InvalidRequest <==> caller.authenticated && token.None?)
            && (v == TypeFault <==>
                  caller.authenticated && known
                  && var claims := Verify(token.value, jwks).value; "exp" in claims && !claims["exp"].Num?)
            && (v.Active? <==>
                  caller.authenticated && known
                  && var claims := Verify(token.value, jwks).value;
                     Current(claims, now) && (caller.isClientApp ==> MeantFor(claims, caller.id)))
  {
  }

  /** An active response passes on exactly the eighteen claims below that the token has, with their
      values, and the token's azp as the client id. */
  lemma ActivePassesOn(caller: Caller, token: Token, jwks: seq<Key>, now: int, c: string)
    requires Introspect(caller, Some(token), jwks, now).Active?
    ensures var v, claims := Introspect(caller, Some(token), jwks, now), Verify(token, jwks).value;
            && Lookup(v.passed, c) ==
               (if c in {"sub", "iss", "aud", "exp", "iat", "nbf", "jti", "scope", "azp", "preferred_username",
                         "name", "upn", "roles", "groups", "scp", "tid", "appid", "ver"}
                then Lookup(claims, c) else None)
            && v.clientId == Lookup(claims, "azp")
  {
  }

  // ── Over a run ────────────────────────────────────────────────────────────

  /** A key set that was generated after the token's key does not publish it. */
  lemma FreshKeysRefuse(known: nat, made: seq<KeyName>, issuer: string, ks: KeySet, t: Token)
    requires SetInv(made, issuer, ks)
    requires forall k :: k in ks.Jwks() ==> k.id >= known
    requires t.Signed? ==> t.keyId < known
    ensures Verify(t, ks.Jwks()) == None
  {
    VerifiesAtIssuer(made, issuer, ks, t);
  }

  lemma EvolvedKeysPublishLess(known: nat, before: KeySet, after: KeySet, rotated: bool, k: Key)
    requires Evolves(known, before, after, rotated) && k.id < known
    requires k in after.Jwks()
    ensures k in before.Jwks()
  {
  }

  lemma EvolvedKeysVerifyLess(
      made: seq<KeyName>, later: seq<KeyName>, issuer: string, before: KeySet, after: KeySet, rotated: bool, t: Token)
    requires SetInv(made, issuer, before) && SetInv(later, issuer, after)
    requires Evolves(|made|, before, after, rotated)
    requires t.Signed? ==> t.keyId < |made|
    ensures Verify(t, after.Jwks()).Some? ==> Verify(t, before.Jwks()) == Verify(t, after.Jwks())
  {
    VerifiesAtIssuer(later, issuer, after, t);
    if Verify(t, after.Jwks()).Some? {
      var k := Key(t.keyId, later[t.keyId]);
      EvolvedKeysPublishLess(|made|, before, after, rotated, k);
      ListedKeyVerifies(made, issuer, before, t, k);
    }
  }

  lemma ListedKeyVerifies(made: seq<KeyName>, issuer: string, ks: KeySet, t: Token, k: Key)
    requires SetInv(made, issuer, ks)
    requires t.Signed? && k in ks.Jwks() && k.id == t.keyId && k.Kid() == t.kid
    ensures Verify(t, ks.Jwks()) == Some(t.claims)
  {
    VerifiesAtIssuer(made, issuer, ks, t);
  }

  lemma {:induction false} StepVerifiesLess(s: State, e: Event, at: string, t: Token)
    requires Inv(s)
    requires t.Signed? ==> t.keyId < |s.keys.made|
    ensures VerifyAt(Step(s, e), at, t).Some? ==> VerifyAt(s, at, t) == VerifyAt(Step(s, e), at, t)
  {
    var r := Step(s, e);
    StepKeepsInv(s, e);
    VerifiesInStore(s.keys, at, t);
    VerifiesInStore(r.keys, at, t);
    if at in s.keys.sets {
      StepEvolves(s, e, at);
      EvolvedKeysVerifyLess(s.keys.made, r.keys.made, at, s.keys.sets[at], r.keys.sets[at], Rotates([e], at), t);
    } else if at in r.keys.sets {
      StepCreatesFresh(s, e, at);
      FreshKeysRefuse(|s.keys.made|, r.keys.made, at, r.keys.sets[at], t);
    }
  }

  lemma StepCreatesFresh(s: State, e: Event, at: string)
    requires at !in s.keys.sets && at in Step(s, e).keys.sets
    ensures forall k :: k in Step(s, e).keys.sets[at].Jwks() ==> k.id >= |s.keys.made|
  {
    if e.RotateEvery? {
      RotateEachKeepsOrder(s.keys, s.keys.order);
    }
  }

  /** Keys that verify a token can only be lost, never regained. */
  lemma {:induction false} RunVerifiesLess(s: State, es: seq<Event>, at: string, t: Token)
    requires Inv(s)
    requires t.Signed? ==> t.keyId < |s.keys.made|
    ensures VerifyAt(Run(s, es), at, t).Some? ==> VerifyAt(s, at, t) == VerifyAt(Run(s, es), at, t)
    decreases |es|
  {
    if es != [] {
      StepKeepsInv(s, es[0]);
      StepVerifiesLess(s, es[0], at, t);
      RunVerifiesLess(Step(s, es[0]), es[1..], at, t);
    }
  }

  function IntrospectAt(s: State, issuer: string, caller: Caller, t: Token): Verdict {
    Introspect(caller, Some(t), JwksAt(s.keys, issuer), s.now)
  }

  /** Introspection is monotone over any run: once a token whose key exists is reported inactive,
      by expiry, rotation or audience, it is reported inactive ever after; and while it is
      reported active, it was active before with the same response. */
  lemma IntrospectionMonotone(s: State, es: seq<Event>, issuer: string, caller: Caller, t: Token)
    requires Inv(s)
    requires t.Signed? ==> t.keyId < |s.keys.made|
    ensures IntrospectAt(s, issuer, caller, t) == Inactive ==>
              IntrospectAt(Run(s, es), issuer, caller, t) == Inactive
    ensures IntrospectAt(Run(s, es), issuer, caller, t).Active? ==>
              IntrospectAt(s, issuer, caller, t) == IntrospectAt(Run(s, es), issuer, caller, t)
  {
    ClockForward(s, es);
    RunVerifiesLess(s, es, issuer, t);
  }

  /** A token issued under an expired_token fault with a negative skew (the default is one hour back)
      is never reported active, to any caller, at any issuer, after any events. */
  lemma ExpiredFaultTokenNeverActive(
      s: State, issuer: string, alg: string, claims: Claims, es: seq<Event>, at: string, caller: Caller)
    requires Inv(s)
    requires ExpiryFault(s, issuer) && FaultOf(s, issuer).value.skew < 0
    ensures !IntrospectAt(Run(Step(s, Use(issuer)), es), at, caller, Issue(s, issuer, alg, claims)).Active?
  {
    var s1 := Step(s, Use(issuer));
    ClockForward(s1, es);
    ExpiredFaultTokenLifetime(s, issuer, alg, claims, es, at);
    ExpiredIsNotActive(Run(s1, es), at, caller, Issue(s, issuer, alg, claims), ExpiryMoved(s, issuer, claims));
  }

  lemma ExpiredIsNotActive(s: State, at: string, caller: Caller, t: Token, claims: Claims)
    requires VerifyAt(s, at, t) in {None, Some(claims)} && Expired(claims, s.now) == Some(true)
    ensures !IntrospectAt(s, at, caller, t).Active?
  {
  }
}
