/** The flat key store as a value (src/mock_idp/keys.py): one key set per known issuer in
    order of first use, and the ledger of every key generated so far. */
module Stores {
  import opened Wrappers
  import opened Keys
  import opened Tokens

  datatype Store = Store(order: seq<string>, sets: map<string, KeySet>, made: seq<KeyName>)

  const EMPTY := Store([], map[], [])

  function Get(s: Store, issuer: string): (r: Store)
    ensures issuer in r.sets
  {
    if issuer in s.sets then s
    else Store(s.order + [issuer], s.sets[issuer := NewKeySet(issuer, |s.made|)], s.made + NewNames(issuer))
  }

  function RotateKnown(s: Store, issuer: string): Store {
    if issuer in s.sets then
      var ks := s.sets[issuer];
      Store(s.order, s.sets[issuer := ks.Rotated(|s.made|)],
            s.made + [KeyName(ks.issuer, Signing(ks.seqNo + 1))])
    else s
  }

  function Rotate(s: Store, issuer: string): Store {
    RotateKnown(Get(s, issuer), issuer)
  }

  /** The named issuers rotated one after the other. */
  function RotateEach(s: Store, names: seq<string>): Store {
    if names == [] then s
    else RotateKnown(RotateEach(s, names[..|names| - 1]), names[|names| - 1])
  }

  function RotateAll(s: Store): Store {
    RotateEach(s, s.order)
  }

  function JwksAt(s: Store, issuer: string): seq<Key> {
    Get(s, issuer).sets[issuer].Jwks()
  }

  /** The published keys of the named issuers, concatenated. */
  function JwksOf(sets: map<string, KeySet>, names: seq<string>): seq<Key>
    requires forall i :: i in names ==> i in sets
  {
    if names == [] then []
    else JwksOf(sets, names[..|names| - 1]) + sets[names[|names| - 1]].Jwks()
  }

  lemma JwksOfOneMore(sets: map<string, KeySet>, names: seq<string>, n: nat)
    requires forall i :: i in names ==> i in sets
    requires n < |names|
    ensures JwksOf(sets, names[..n + 1]) == JwksOf(sets, names[..n]) + sets[names[n]].Jwks()
  {
    assert names[..n + 1][..n] == names[..n];
  }

  // ── What every operation keeps ────────────────────────────────────────────

  /** `k` is the key that the ledger records for this issuer and role. */
  predicate Owns(made: seq<KeyName>, issuer: string, role: Role, k: Key) {
    k.id < |made| && made[k.id] == k.name == KeyName(issuer, role)
  }

  predicate SetInv(made: seq<KeyName>, issuer: string, ks: KeySet) {
    && ks.issuer == issuer
    && ks.seqNo >= 1
    && Owns(made, issuer, Signing(ks.seqNo), ks.signing)
    && Owns(made, issuer, Alt, ks.alt)
    && |ks.decoys| == 2
    && Owns(made, issuer, Decoy1, ks.decoys[0])
    && Owns(made, issuer, Decoy2, ks.decoys[1])
    && Owns(made, issuer, EcSigning, ks.ecSigning)
    && Owns(made, issuer, EcAlt, ks.ecAlt)
  }

  /** Every key in use is the one the ledger records for its issuer and role. */
  ghost predicate KeysInv(s: Store) {
    forall i :: i in s.sets ==> SetInv(s.made, i, s.sets[i])
  }

  /** `order` lists the keys of the dictionary `sets`, each once, in insertion order. */
  ghost predicate Ordered(s: Store) {
    && (forall i :: i in s.order ==> i in s.sets)
    && (forall i :: i in s.sets ==> i in s.order)
    && (forall m, n :: 0 <= m < n < |s.order| ==> s.order[m] != s.order[n])
  }

  lemma LedgerGrows(made: seq<KeyName>, later: seq<KeyName>, issuer: string, ks: KeySet)
    requires SetInv(made, issuer, ks) && made <= later
    ensures SetInv(later, issuer, ks)
  {
  }

  lemma GetKeepsKeys(s: Store, issuer: string)
    requires KeysInv(s)
    ensures KeysInv(Get(s, issuer)) && s.made <= Get(s, issuer).made
  {
    if issuer !in s.sets {
      var r := Get(s, issuer);
      assert SetInv(r.made, issuer, r.sets[issuer]);
      forall i | i in r.sets ensures SetInv(r.made, i, r.sets[i]) {
        if i != issuer { LedgerGrows(s.made, r.made, i, s.sets[i]); }
      }
    }
  }

  lemma RotateKnownKeepsKeys(s: Store, issuer: string)
    requires KeysInv(s)
    ensures KeysInv(RotateKnown(s, issuer)) && s.made <= RotateKnown(s, issuer).made
  {
    if issuer in s.sets {
      var r := RotateKnown(s, issuer);
      RotatedSetIsOwned(s, issuer);
      forall i | i in r.sets ensures SetInv(r.made, i, r.sets[i]) {
        if i != issuer { LedgerGrows(s.made, r.made, i, s.sets[i]); }
      }
    }
  }

  lemma RotatedSetIsOwned(s: Store, issuer: string)
    requires issuer in s.sets && SetInv(s.made, issuer, s.sets[issuer])
    ensures var r := RotateKnown(s, issuer); SetInv(r.made, issuer, r.sets[issuer])
  {
  }

  lemma {:induction false} RotateEachKeepsKeys(s: Store, names: seq<string>)
    requires KeysInv(s)
    ensures KeysInv(RotateEach(s, names)) && s.made <= RotateEach(s, names).made
  {
    if names != [] {
      RotateEachKeepsKeys(s, names[..|names| - 1]);
      RotateKnownKeepsKeys(RotateEach(s, names[..|names| - 1]), names[|names| - 1]);
    }
  }

  lemma GetKeepsOrder(s: Store, issuer: string)
    requires Ordered(s)
    ensures Ordered(Get(s, issuer))
  {
  }

  lemma {:induction false} RotateEachKeepsOrder(s: Store, names: seq<string>)
    ensures RotateEach(s, names).order == s.order && RotateEach(s, names).sets.Keys == s.sets.Keys
  {
    if names != [] {
      RotateEachKeepsOrder(s, names[..|names| - 1]);
    }
  }

  // ── Published keys ────────────────────────────────────────────────────────

  function PublishedRoles(seqNo: nat): seq<Role> {
    [Signing(seqNo), EcSigning, Decoy1, Decoy2]
  }

  lemma PublishedKeys(made: seq<KeyName>, issuer: string, ks: KeySet)
    requires SetInv(made, issuer, ks)
    ensures |ks.Jwks()| == 4
    ensures forall n :: 0 <= n < 4 ==> Owns(made, issuer, PublishedRoles(ks.seqNo)[n], ks.Jwks()[n])
    ensures DistinctKids(ks.Jwks())
  {
    forall m, n | 0 <= m < n < 4 ensures ks.Jwks()[m].Kid() != ks.Jwks()[n].Kid() {
      KidsCoincideExactlyWhen(issuer, PublishedRoles(ks.seqNo)[m], issuer, PublishedRoles(ks.seqNo)[n]);
      assert |issuer| != |issuer + "-ec"|;
    }
  }

  /** A token verifies at an issuer exactly when it carries the identity and the kid of one of
      the four published keys; that key was generated for this issuer in a published role. */
  lemma VerifiesAtIssuer(made: seq<KeyName>, issuer: string, ks: KeySet, t: Token)
    requires SetInv(made, issuer, ks)
    ensures Verify(t, ks.Jwks()).Some? <==>
            t.Signed? && exists k :: k in ks.Jwks() && k.id == t.keyId && k.Kid() == t.kid
    ensures Verify(t, ks.Jwks()).Some? ==>
              && Verify(t, ks.Jwks()) == Some(t.claims)
              && t.keyId < |made|
              && made[t.keyId].issuer == issuer
              && made[t.keyId].role in PublishedRoles(ks.seqNo)
              && t.kid == KidOf(issuer, made[t.keyId].role)
              && Key(t.keyId, made[t.keyId]) in ks.Jwks()
  {
    PublishedKeys(made, issuer, ks);
    VerifiesExactlyWhenKeyListed(t, ks.Jwks());
    if Verify(t, ks.Jwks()).Some? {
      var k :| k in ks.Jwks() && k.id == t.keyId && k.Kid() == t.kid;
      var n :| 0 <= n < 4 && ks.Jwks()[n] == k;
      assert Owns(made, issuer, PublishedRoles(ks.seqNo)[n], k);
    }
  }

  /** For a token whose key has been generated, first use of an issuer is the same as no keys:
      it verifies exactly when its issuer is known and publishes its key under its kid. */
  lemma VerifiesInStore(s: Store, issuer: string, t: Token)
    requires t.Signed? ==> t.keyId < |s.made|
    ensures Verify(t, JwksAt(s, issuer)) ==
            if issuer in s.sets then Verify(t, s.sets[issuer].Jwks()) else None
  {
    if issuer !in s.sets {
      var g := Get(s, issuer);
      assert SetInv(g.made, issuer, g.sets[issuer]);
      VerifiesAtIssuer(g.made, issuer, g.sets[issuer], t);
      assert forall k :: k in NewKeySet(issuer, |s.made|).Jwks() ==> k.id >= |s.made|;
    }
  }

  lemma AltKidUnpublished(made: seq<KeyName>, issuer: string, ks: KeySet, t: Token, owner: string, role: Role)
    requires SetInv(made, issuer, ks)
    requires t.Signed? && t.kid == KidOf(owner, role) && (role.Alt? || role.EcAlt?)
    ensures Verify(t, ks.Jwks()) == None
  {
    VerifiesAtIssuer(made, issuer, ks, t);
    if Verify(t, ks.Jwks()).Some? {
      KidsCoincideExactlyWhen(owner, role, issuer, made[t.keyId].role);
    }
  }
}
