/** Whole runs of the flat server: keys are created on first use and rotated, faults come and
    go, time passes, tokens are issued and checked
    (src/mock_idp/keys.py, src/mock_idp/chaos.py, src/mock_idp/token_handler.py). */
module Lifecycle {
  import opened Wrappers
  import opened Keys
  import opened Tokens
  import opened Stores

  datatype State = State(keys: Store, faults: map<string, Fault>, now: nat)

  /** `Use` is any request that looks keys up: JWKS, token, introspection, userinfo. */
  datatype Event =
    | Use(issuer: string)
    | RotateOne(issuer: string)
    | RotateEvery
    | SetFault(issuer: string, fault: Fault)
    | ClearFault(issuer: string)
    | Tick(seconds: nat)

  ghost predicate Inv(s: State) {
    KeysInv(s.keys) && Ordered(s.keys)
  }

  function Step(s: State, e: Event): State {
    match e
    case Use(i) => s.(keys := Get(s.keys, i))
    case RotateOne(i) => s.(keys := Stores.Rotate(s.keys, i))
    case RotateEvery => s.(keys := RotateAll(s.keys))
    case SetFault(i, f) => s.(faults := s.faults[i := f])
    case ClearFault(i) => s.(faults := s.faults - {i})
    case Tick(d) => s.(now := s.now + d)
  }

  function Run(s: State, es: seq<Event>): State
    decreases |es|
  {
    if es == [] then s else Run(Step(s, es[0]), es[1..])
  }

  lemma StepKeepsKeys(s: State, e: Event)
    requires KeysInv(s.keys)
    ensures KeysInv(Step(s, e).keys) && s.keys.made <= Step(s, e).keys.made
  {
    match e
    case Use(i) => GetKeepsKeys(s.keys, i);
    case RotateOne(i) =>
      GetKeepsKeys(s.keys, i);
      RotateKnownKeepsKeys(Get(s.keys, i), i);
    case RotateEvery => RotateEachKeepsKeys(s.keys, s.keys.order);
    case _ =>
  }

  lemma StepKeepsOrder(s: State, e: Event)
    requires Ordered(s.keys)
    ensures Ordered(Step(s, e).keys)
  {
    match e
    case Use(i) => GetKeepsOrder(s.keys, i);
    case RotateOne(i) => GetKeepsOrder(s.keys, i);
    case RotateEvery => RotateEachKeepsOrder(s.keys, s.keys.order);
    case _ =>
  }

  lemma StepKeepsInv(s: State, e: Event)
    requires Inv(s)
    ensures Inv(Step(s, e))
    ensures s.keys.made <= Step(s, e).keys.made
  {
    StepKeepsKeys(s, e);
    StepKeepsOrder(s, e);
  }

  /** Every reachable state keeps the invariant, and no generated key is forgotten. */
  lemma {:induction false} RunKeepsInv(s: State, es: seq<Event>)
    requires Inv(s)
    ensures Inv(Run(s, es))
    ensures s.keys.made <= Run(s, es).keys.made
    decreases |es|
  {
    if es != [] {
      StepKeepsInv(s, es[0]);
      RunKeepsInv(Step(s, es[0]), es[1..]);
    }
  }

  lemma {:induction false} ClockForward(s: State, es: seq<Event>)
    ensures s.now <= Run(s, es).now
    decreases |es|
  {
    if es != [] {
      ClockForward(Step(s, es[0]), es[1..]);
    }
  }

  /** Was this issuer's signing key rotated? (Rotating all reaches every known issuer.) */
  predicate Rotates(es: seq<Event>, issuer: string) {
    RotateOne(issuer) in es || RotateEvery in es
  }

  // ── What a run does to one issuer's keys ──────────────────────────────────

  /** From `before` to `after` only the signing key and its number may differ; if it was
      rotated, the signing key is one that was generated after the first `known` keys. */
  predicate Evolves(known: nat, before: KeySet, after: KeySet, rotated: bool) {
    if rotated then
      && after == before.(signing := after.signing, seqNo := after.seqNo)
      && after.seqNo > before.seqNo
      && after.signing.id >= known
    else after == before
  }

  lemma {:induction false} RotateEachEvolves(s: Store, names: seq<string>, issuer: string)
    requires issuer in s.sets
    ensures |RotateEach(s, names).made| >= |s.made|
    ensures issuer in RotateEach(s, names).sets
    ensures Evolves(|s.made|, s.sets[issuer], RotateEach(s, names).sets[issuer], issuer in names)
  {
    if names != [] {
      RotateEachEvolves(s, names[..|names| - 1], issuer);
      assert names == names[..|names| - 1] + [names[|names| - 1]];
    }
  }

  lemma StepEvolves(s: State, e: Event, issuer: string)
    requires Ordered(s.keys) && issuer in s.keys.sets
    ensures issuer in Step(s, e).keys.sets
    ensures |s.keys.made| <= |Step(s, e).keys.made|
    ensures Evolves(|s.keys.made|, s.keys.sets[issuer], Step(s, e).keys.sets[issuer], Rotates([e], issuer))
  {
    if e.RotateEvery? {
      RotateEachEvolves(s.keys, s.keys.order, issuer);
    }
  }

  lemma EvolvesTwice(k0: nat, k1: nat, x: KeySet, y: KeySet, z: KeySet, r0: bool, r1: bool)
    requires k0 <= k1 && Evolves(k0, x, y, r0) && Evolves(k1, y, z, r1)
    ensures Evolves(k0, x, z, r0 || r1)
  {
  }

  lemma RotatesFirstOrLater(es: seq<Event>, issuer: string)
    requires es != []
    ensures Rotates(es, issuer) <==> Rotates([es[0]], issuer) || Rotates(es[1..], issuer)
  {
  }

  lemma {:induction false} RunEvolves(s: State, es: seq<Event>, issuer: string)
    requires Ordered(s.keys) && issuer in s.keys.sets
    ensures issuer in Run(s, es).keys.sets
    ensures Evolves(|s.keys.made|, s.keys.sets[issuer], Run(s, es).keys.sets[issuer], Rotates(es, issuer))
    decreases |es|
  {
    if es != [] {
      var s1 := Step(s, es[0]);
      StepEvolves(s, es[0], issuer);
      StepKeepsOrder(s, es[0]);
      RunEvolves(s1, es[1..], issuer);
      RotatesFirstOrLater(es, issuer);
      EvolvesTwice(|s.keys.made|, |s1.keys.made|, s.keys.sets[issuer], s1.keys.sets[issuer],
                   Run(s1, es[1..]).keys.sets[issuer], Rotates([es[0]], issuer), Rotates(es[1..], issuer));
    }
  }

  // ── Issued tokens over a run ──────────────────────────────────────────────

  function FaultOf(s: State, issuer: string): Option<Fault> {
    Lookup(s.faults, issuer)
  }

  predicate OnFaultOf(issuer: string, e: Event) {
    match e
    case SetFault(i, _) => i == issuer
    case ClearFault(i) => i == issuer
    case _ => false
  }

  lemma {:induction false} UntouchedFaultStays(s: State, es: seq<Event>, issuer: string)
    requires forall n :: 0 <= n < |es| ==> !OnFaultOf(issuer, es[n])
    ensures FaultOf(Run(s, es), issuer) == FaultOf(s, issuer)
    decreases |es|
  {
    if es != [] {
      UntouchedFaultStays(Step(s, es[0]), es[1..], issuer);
    }
  }

  /** After any run the fault of an issuer is what the last event on it left: the fault that was set, or
      none after a clear. Faults of other issuers, rotations and time do not matter. */
  lemma {:induction false} LastFaultEventCounts(s: State, es: seq<Event>, issuer: string, p: nat)
    requires p < |es| && OnFaultOf(issuer, es[p])
    requires forall n :: p < n < |es| ==> !OnFaultOf(issuer, es[n])
    ensures FaultOf(Run(s, es), issuer) == if es[p].SetFault? then Some(es[p].fault) else None
    decreases |es|
  {
    if p == 0 {
      UntouchedFaultStays(Step(s, es[0]), es[1..], issuer);
    } else {
      LastFaultEventCounts(Step(s, es[0]), es[1..], issuer, p - 1);
    }
  }

  /** The token a grant hands out for these claims; the request itself is a `Use` of the issuer. */
  function Issue(s: State, issuer: string, alg: string, claims: Claims): Token {
    CorruptOrSign(claims, FaultOf(s, issuer), Get(s.keys, issuer).sets[issuer], alg, s.now)
  }

  function IssueWrongSig(s: State, issuer: string, alg: string, claims: Claims): Token {
    Sign(claims, Get(s.keys, issuer).sets[issuer].AltKeyForAlg(alg))
  }

  function VerifyAt(s: State, issuer: string, t: Token): Option<Claims> {
    Verify(t, JwksAt(s.keys, issuer))
  }

  /** Verification of a token signed by `key` of `owner`: nobody else verifies it, and `owner`
      does exactly while the key is among its published ones. */
  lemma {:induction false} SignedKeyVerifies(s: State, at: string, owner: string, role: Role, key: Key, claims: Claims)
    requires Inv(s) && Owns(s.keys.made, owner, role, key) && owner in s.keys.sets
    ensures VerifyAt(s, at, Sign(claims, key)) ==
            if at == owner && key in s.keys.sets[owner].Jwks() then Some(claims) else None
  {
    VerifiesInStore(s.keys, at, Sign(claims, key));
    if at in s.keys.sets {
      VerifiesAtIssuer(s.keys.made, at, s.keys.sets[at], Sign(claims, key));
    }
  }

  lemma PublishedAfter(
      known: nat, made: seq<KeyName>, issuer: string, before: KeySet, after: KeySet, rotated: bool, alg: string)
    requires SetInv(made, issuer, before) && known == |made|
    requires Evolves(known, before, after, rotated)
    ensures before.SigningKeyForAlg(alg) in after.Jwks() <==> alg == "ES256" || !rotated
  {
  }

  function SignNow(s: State, issuer: string, alg: string, claims: Claims): Token {
    Sign(claims, Get(s.keys, issuer).sets[issuer].SigningKeyForAlg(alg))
  }

  /** A token signed with an issuer's current key verifies there exactly until that issuer's next
      rotation (ES256: for ever), and at no other issuer, whatever happens to keys, faults and
      clock in between. */
  lemma SignedTokenLifetime(s: State, issuer: string, alg: string, claims: Claims, es: seq<Event>, at: string)
    requires Inv(s)
    ensures VerifyAt(Run(Step(s, Use(issuer)), es), at, SignNow(s, issuer, alg, claims)) ==
            if at == issuer && (alg == "ES256" || !Rotates(es, issuer)) then Some(claims) else None
  {
    var s1 := Step(s, Use(issuer));
    StepKeepsInv(s, Use(issuer));
    var s2 := Run(s1, es);
    RunKeepsInv(s1, es);
    RunEvolves(s1, es, issuer);
    var before := s1.keys.sets[issuer];
    assert SetInv(s1.keys.made, issuer, before);
    var role := if alg == "ES256" then EcSigning else Signing(before.seqNo);
    SignedKeyVerifies(s2, at, issuer, role, before.SigningKeyForAlg(alg), claims);
    PublishedAfter(|s1.keys.made|, s1.keys.made, issuer, before, s2.keys.sets[issuer], Rotates(es, issuer), alg);
  }

  /** So does every token issued while no fault corrupts tokens, with the claims it was asked for. */
  lemma {:induction false} FaultFreeTokenLifetime(
      s: State, issuer: string, alg: string, claims: Claims, es: seq<Event>, at: string)
    requires Inv(s)
    requires Faultless(FaultOf(s, issuer))
    ensures VerifyAt(Run(Step(s, Use(issuer)), es), at, Issue(s, issuer, alg, claims)) ==
            if at == issuer && (alg == "ES256" || !Rotates(es, issuer)) then Some(claims) else None
  {
    SignedTokenLifetime(s, issuer, alg, claims, es, at);
  }

  /** The expired_token fault leaves the signature good and moves `exp`, and nothing else, to the
      given distance from the time of issue. */
  lemma ExpiredFaultTokenLifetime(s: State, issuer: string, alg: string, claims: Claims, es: seq<Event>, at: string)
    requires Inv(s)
    requires ExpiryFault(s, issuer)
    ensures VerifyAt(Run(Step(s, Use(issuer)), es), at, Issue(s, issuer, alg, claims)) ==
            if at == issuer && (alg == "ES256" || !Rotates(es, issuer)) then Some(ExpiryMoved(s, issuer, claims)) else None
  {
    IssueByFault(s, issuer, alg, claims);
    SignedTokenLifetime(s, issuer, alg, ExpiryMoved(s, issuer, claims), es, at);
  }

  predicate ExpiryFault(s: State, issuer: string) {
    FaultOf(s, issuer).Some? && FaultOf(s, issuer).value.ExpiredToken?
  }

  function ExpiryMoved(s: State, issuer: string, claims: Claims): Claims
    requires ExpiryFault(s, issuer)
  {
    claims["exp" := Num(s.now + FaultOf(s, issuer).value.skew)]
  }

  /** What each fault does to the token. */
  lemma IssueByFault(s: State, issuer: string, alg: string, claims: Claims)
    ensures Faultless(FaultOf(s, issuer)) ==> Issue(s, issuer, alg, claims) == SignNow(s, issuer, alg, claims)
    ensures FaultOf(s, issuer) == Some(InvalidToken) ==> Issue(s, issuer, alg, claims) == Unsigned(claims)
    ensures FaultOf(s, issuer) == Some(InvalidSignature) ==>
              Issue(s, issuer, alg, claims) == IssueWrongSig(s, issuer, alg, claims)
    ensures ExpiryFault(s, issuer) ==>
              Issue(s, issuer, alg, claims) == SignNow(s, issuer, alg, ExpiryMoved(s, issuer, claims))
  {
  }

  /** Tokens that must never verify: signed with an issuer's alternative key by the wrong-sig
      endpoint, unsigned or MACed, or issued under a fault that corrupts the signature. */
  predicate Corrupt(s: State, issuer: string, alg: string, claims: Claims, t: Token) {
    || t == IssueWrongSig(s, issuer, alg, claims)
    || !t.Signed?
    || (t == Issue(s, issuer, alg, claims)
        && (FaultOf(s, issuer) == Some(InvalidSignature) || FaultOf(s, issuer) == Some(InvalidToken)))
  }

  /** They verify nowhere: not in any earlier state of the run, nor after any later events. */
  lemma {:induction false} CorruptTokenNeverVerifies(
      s0: State, es0: seq<Event>, issuer: string, alg: string, claims: Claims, t: Token, es: seq<Event>, at: string)
    requires Inv(s0)
    requires Corrupt(Run(s0, es0), issuer, alg, claims, t)
    ensures VerifyAt(s0, at, t) == None
    ensures VerifyAt(Run(Run(s0, es0), es), at, t) == None
  {
    if t.Signed? {
      var s := Run(s0, es0);
      RunKeepsInv(s0, es0);
      RunKeepsInv(s, es);
      var role := if alg == "ES256" then EcAlt else Alt;
      CorruptTokenHasAltKid(s, issuer, alg, claims, t);
      AltKidNeverPublished(s0, at, t, issuer, role);
      AltKidNeverPublished(Run(s, es), at, t, issuer, role);
    }
  }

  lemma CorruptTokenHasAltKid(s: State, issuer: string, alg: string, claims: Claims, t: Token)
    requires KeysInv(s.keys) && Corrupt(s, issuer, alg, claims, t) && t.Signed?
    ensures t.kid == KidOf(issuer, if alg == "ES256" then EcAlt else Alt)
  {
  }

  lemma AltKidNeverPublished(s: State, at: string, t: Token, owner: string, role: Role)
    requires Inv(s)
    requires t.Signed? && t.kid == KidOf(owner, role) && (role.Alt? || role.EcAlt?)
    ensures VerifyAt(s, at, t) == None
  {
    var g := Get(s.keys, at);
    GetKeepsKeys(s.keys, at);
    AltKidUnpublished(g.made, at, g.sets[at], t, owner, role);
  }
}
