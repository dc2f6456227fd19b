/** Tokens with ideal signatures: signing and verifying (src/mock_idp/tokens.py) and the
    corruption faults applied while signing (src/mock_idp/token_handler.py).

    Assumption about joserfc: decoding picks the first key of the list with the token's kid,
    and succeeds exactly when the token was signed by that very key; `alg: none` tokens and
    HMAC tokens are refused. */
module Tokens {
  import opened Wrappers
  import opened Keys

  datatype Value = Num(n: int) | Str(s: string) | Strs(items: seq<string>) | Actor(sub: string) | Null

  type Claims = map<string, Value>

  /** Python's `int` on text; None is its ValueError. */
  type ParseInt = string -> Option<int>

  datatype Token =
    | Signed(keyId: nat, kid: string, claims: Claims)
    | Unsigned(claims: Claims)
    | Mac(claims: Claims)

  datatype Fault = Error500 | DelayMs | InvalidToken | InvalidSignature | ExpiredToken(skew: int)

  function Sign(claims: Claims, key: Key): Token {
    Signed(key.id, key.Kid(), claims)
  }

  function FindKid(keys: seq<Key>, kid: string): Option<Key> {
    if keys == [] then None
    else if keys[0].Kid() == kid then Some(keys[0])
    else FindKid(keys[1..], kid)
  }

  function Verify(t: Token, keys: seq<Key>): Option<Claims> {
    if t.Signed? then
      match FindKid(keys, t.kid)
      case None => None
      case Some(k) => if k.id == t.keyId then Some(t.claims) else None
    else None
  }

  function CorruptOrSign(claims: Claims, fault: Option<Fault>, ks: KeySet, alg: string, now: int): Token {
    match fault
    case Some(InvalidToken) => Unsigned(claims)
    case Some(InvalidSignature) => Sign(claims, ks.AltKeyForAlg(alg))
    case Some(ExpiredToken(skew)) => Sign(claims["exp" := Num(now + skew)], ks.SigningKeyForAlg(alg))
    case _ => Sign(claims, ks.SigningKeyForAlg(alg))
  }

  /** `claims.get("exp", 0) < now`; None is the type error. */
  function Expired(claims: Claims, now: int): Option<bool> {
    if "exp" !in claims then Some(0 < now)
    else if claims["exp"].Num? then Some(claims["exp"].n < now)
    else None
  }

  /** Not expired: a missing `exp` counts as 0, and a token is good up to and including its `exp`. */
  predicate Current(claims: Claims, now: int) {
    if "exp" in claims then claims["exp"].Num? && now <= claims["exp"].n else now <= 0
  }

  /** The faults that do not touch the token. */
  predicate Faultless(fault: Option<Fault>) {
    fault.None? || fault.value.Error500? || fault.value.DelayMs?
  }

  // ── Key selection by kid ──────────────────────────────────────────────────

  lemma {:induction false} FindKidIsFirst(keys: seq<Key>, kid: string)
    ensures FindKid(keys, kid).None? <==> forall n :: 0 <= n < |keys| ==> keys[n].Kid() != kid
    ensures FindKid(keys, kid).Some? ==>
              exists n :: 0 <= n < |keys| && keys[n] == FindKid(keys, kid).value && keys[n].Kid() == kid
                          && forall m :: 0 <= m < n ==> keys[m].Kid() != kid
  {
    if keys != [] && keys[0].Kid() != kid {
      FindKidIsFirst(keys[1..], kid);
      if FindKid(keys[1..], kid).Some? {
        var n :| 0 <= n < |keys[1..]| && keys[1..][n] == FindKid(keys, kid).value && keys[1..][n].Kid() == kid
                 && forall m :: 0 <= m < n ==> keys[1..][m].Kid() != kid;
        assert keys[n + 1] == FindKid(keys, kid).value;
        assert forall m :: 0 <= m < n + 1 ==> m == 0 || keys[m] == keys[1..][m - 1];
      } else {
        assert forall n :: 0 <= n < |keys| ==> n == 0 || keys[n] == keys[1..][n - 1];
      }
    }
  }

  lemma {:induction false} FindKidAppend(a: seq<Key>, b: seq<Key>, kid: string)
    ensures FindKid(a + b, kid) == if FindKid(a, kid).Some? then FindKid(a, kid) else FindKid(b, kid)
  {
    if a == [] {
      assert a + b == b;
    } else {
      assert (a + b)[1..] == a[1..] + b;
      FindKidAppend(a[1..], b, kid);
    }
  }

  predicate DistinctKids(keys: seq<Key>) {
    forall m, n :: 0 <= m < n < |keys| ==> keys[m].Kid() != keys[n].Kid()
  }

  /** When no kid repeats, a token verifies exactly when its own key is in the list. */
  lemma VerifiesExactlyWhenKeyListed(t: Token, keys: seq<Key>)
    requires DistinctKids(keys)
    ensures Verify(t, keys).Some? <==> t.Signed? && exists k :: k in keys && k.id == t.keyId && k.Kid() == t.kid
    ensures Verify(t, keys).Some? ==> Verify(t, keys).value == t.claims
  {
    if t.Signed? {
      FindKidIsFirst(keys, t.kid);
      if k :| k in keys && k.id == t.keyId && k.Kid() == t.kid {
        var n :| 0 <= n < |keys| && keys[n] == k;
        var found := FindKid(keys, t.kid).value;
        var m :| 0 <= m < |keys| && keys[m] == found;
        assert m == n;
      }
    }
  }
}
