/** Selecting a key by kid over the published keys of all issuers, as the debug endpoint does
    (src/mock_idp/keys.py, all_jwks_keys; src/mock_idp/routers/debug.py). */
module MergedKeys {
  import opened Wrappers
  import opened Keys
  import opened Tokens
  import opened Stores
  import opened Lifecycle

  function AllJwks(s: Store): seq<Key>
    requires forall i :: i in s.order ==> i in s.sets
  {
    JwksOf(s.sets, s.order)
  }

  /** Two published keys of different issuers share a kid only if one issuer is the other with
      "-ec" appended and has never been rotated. */
  lemma SharedKidsOfIssuers(i: string, m: nat, r: Role, j: string, n: nat, q: Role)
    requires i != j && r in PublishedRoles(m) && q in PublishedRoles(n)
    requires KidOf(i, r) == KidOf(j, q)
    ensures (i == j + "-ec" && m == 1) || (j == i + "-ec" && n == 1)
  {
    KidsCoincideExactlyWhen(i, r, j, q);
  }

  /** The condition an administrator can check: some known issuer x has a never-rotated x-ec beside it. */
  ghost predicate EcPair(s: Store) {
    exists j :: j in s.sets && (j + "-ec") in s.sets && s.sets[j + "-ec"].seqNo == 1
  }

  lemma {:induction false} MergedSkips(sets: map<string, KeySet>, names: seq<string>, kid: string)
    requires forall i :: i in names ==> i in sets
    requires forall i :: i in names ==> FindKid(sets[i].Jwks(), kid).None?
    ensures FindKid(JwksOf(sets, names), kid).None?
  {
    if names != [] {
      var front, last := names[..|names| - 1], names[|names| - 1];
      MergedSkips(sets, front, kid);
      FindKidAppend(JwksOf(sets, front), sets[last].Jwks(), kid);
    }
  }

  /** What the merged list finds, it found in one of the named issuers' own lists. */
  lemma {:induction false} MergedFinds(sets: map<string, KeySet>, names: seq<string>, kid: string)
    requires forall i :: i in names ==> i in sets
    ensures FindKid(JwksOf(sets, names), kid).Some? ==>
              exists i :: i in names && FindKid(sets[i].Jwks(), kid) == FindKid(JwksOf(sets, names), kid)
  {
    if names != [] {
      var front, last := names[..|names| - 1], names[|names| - 1];
      MergedFinds(sets, front, kid);
      FindKidAppend(JwksOf(sets, front), sets[last].Jwks(), kid);
    }
  }

  /** An issuer that lists the kid hides all issuers after it. */
  lemma {:induction false} MergedStopsAt(sets: map<string, KeySet>, names: seq<string>, p: nat, kid: string)
    requires forall i :: i in names ==> i in sets
    requires p < |names| && FindKid(sets[names[p]].Jwks(), kid).Some?
    ensures FindKid(JwksOf(sets, names), kid).Some?
    ensures FindKid(JwksOf(sets, names), kid) == FindKid(JwksOf(sets, names[..p + 1]), kid)
  {
    var front, last := names[..|names| - 1], names[|names| - 1];
    FindKidAppend(JwksOf(sets, front), sets[last].Jwks(), kid);
    if p < |names| - 1 {
      MergedStopsAt(sets, front, p, kid);
      assert front[..p + 1] == names[..p + 1];
    } else {
      assert names[..p + 1] == names;
    }
  }

  lemma OtherIssuerLacksKid(s: Store, i: string, j: string, t: Token)
    requires KeysInv(s) && !EcPair(s) && i in s.sets && j in s.sets && i != j
    requires Verify(t, s.sets[i].Jwks()).Some?
    ensures FindKid(s.sets[j].Jwks(), t.kid).None?
  {
    var ki, kj := s.sets[i], s.sets[j];
    VerifiesAtIssuer(s.made, i, ki, t);
    PublishedKeys(s.made, j, kj);
    FindKidIsFirst(kj.Jwks(), t.kid);
    forall n | 0 <= n < 4 ensures kj.Jwks()[n].Kid() != t.kid {
      var q := PublishedRoles(kj.seqNo)[n];
      assert Owns(s.made, j, q, kj.Jwks()[n]);
      if KidOf(i, s.made[t.keyId].role) == KidOf(j, q) {
        SharedKidsOfIssuers(i, ki.seqNo, s.made[t.keyId].role, j, kj.seqNo, q);
      }
    }
  }

  lemma {:induction false} MergedSelectionRight(s: Store, i: string, t: Token)
    requires KeysInv(s) && Ordered(s) && !EcPair(s) && i in s.sets
    requires Verify(t, s.sets[i].Jwks()).Some?
    ensures Verify(t, AllJwks(s)) == Verify(t, s.sets[i].Jwks())
  {
    var p :| 0 <= p < |s.order| && s.order[p] == i;
    forall j | j in s.order[..p] ensures j in s.sets && FindKid(s.sets[j].Jwks(), t.kid).None? {
      OtherIssuerLacksKid(s, i, j, t);
    }
    FirstWithKidIsFound(s.sets, s.order, p, t.kid);
  }

  lemma FirstWithKidIsFound(sets: map<string, KeySet>, names: seq<string>, p: nat, kid: string)
    requires forall i :: i in names ==> i in sets
    requires p < |names| && FindKid(sets[names[p]].Jwks(), kid).Some?
    requires forall j :: j in names[..p] ==> FindKid(sets[j].Jwks(), kid).None?
    ensures FindKid(JwksOf(sets, names), kid) == FindKid(sets[names[p]].Jwks(), kid)
  {
    var upTo := names[..p + 1];
    assert upTo[..p] == names[..p];
    MergedSkips(sets, names[..p], kid);
    MergedStopsAt(sets, names, p, kid);
    FindKidAppend(JwksOf(sets, names[..p]), sets[names[p]].Jwks(), kid);
  }

  lemma NotAmongEarlier(order: seq<string>, pa: nat, pb: nat)
    requires pa < pb < |order|
    requires forall m, n :: 0 <= m < n < |order| ==> order[m] != order[n]
    ensures order[pb] !in order[..pa + 1]
  {
  }

  /** What the merged list finds for a kid listed by the issuer at `pa` belongs to that issuer
      or to one before it. */
  lemma {:induction false} MergedFindsEarlier(s: Store, pa: nat, kid: string) returns (x: string)
    requires KeysInv(s) && Ordered(s) && pa < |s.order|
    requires FindKid(s.sets[s.order[pa]].Jwks(), kid).Some?
    ensures x in s.order[..pa + 1] && FindKid(AllJwks(s), kid).Some?
    ensures var k := FindKid(AllJwks(s), kid).value; k.id < |s.made| && s.made[k.id].issuer == x
  {
    var names := s.order[..pa + 1];
    MergedStopsAt(s.sets, s.order, pa, kid);
    MergedFinds(s.sets, names, kid);
    x :| x in names && FindKid(s.sets[x].Jwks(), kid) == FindKid(JwksOf(s.sets, names), kid);
    FoundKeyIsOwn(s, x, kid);
  }

  /** If a key's kid is also listed by an issuer used earlier, tokens signed with the key fail
      against the merged list. */
  lemma {:induction false} ShadowedKeyFails(s: Store, pa: nat, pb: nat, key: Key, role: Role)
    requires KeysInv(s) && Ordered(s) && pa < pb < |s.order|
    requires FindKid(s.sets[s.order[pa]].Jwks(), key.Kid()).Some?
    requires Owns(s.made, s.order[pb], role, key)
    ensures Verify(Sign(map[], key), AllJwks(s)).None?
  {
    var x := MergedFindsEarlier(s, pa, key.Kid());
    NotAmongEarlier(s.order, pa, pb);
  }

  lemma FoundKeyIsOwn(s: Store, x: string, kid: string)
    requires KeysInv(s) && x in s.sets && FindKid(s.sets[x].Jwks(), kid).Some?
    ensures var k := FindKid(s.sets[x].Jwks(), kid).value; k.id < |s.made| && s.made[k.id].issuer == x
  {
    PublishedKeys(s.made, x, s.sets[x]);
    FindKidIsFirst(s.sets[x].Jwks(), kid);
    var n :| 0 <= n < 4 && s.sets[x].Jwks()[n] == FindKid(s.sets[x].Jwks(), kid).value;
    assert Owns(s.made, x, PublishedRoles(s.sets[x].seqNo)[n], s.sets[x].Jwks()[n]);
  }

  ghost predicate MergedSelects(s: Store, i: string, t: Token)
    requires Ordered(s) && i in s.sets
  {
    Verify(t, s.sets[i].Jwks()).Some? ==> Verify(t, AllJwks(s)) == Verify(t, s.sets[i].Jwks())
  }

  lemma OwnKeyVerifies(s: Store, i: string, n: nat)
    requires KeysInv(s) && i in s.sets && n < 4
    ensures |s.sets[i].Jwks()| == 4
    ensures FindKid(s.sets[i].Jwks(), s.sets[i].Jwks()[n].Kid()).Some?
    ensures Verify(Sign(map[], s.sets[i].Jwks()[n]), s.sets[i].Jwks()) == Some(map[])
  {
    PublishedKeys(s.made, i, s.sets[i]);
    var k := s.sets[i].Jwks()[n];
    VerifiesAtIssuer(s.made, i, s.sets[i], Sign(map[], k));
  }

  lemma EcPairBreaksSelection(s: Store, j: string)
    requires KeysInv(s) && Ordered(s)
    requires j in s.sets && (j + "-ec") in s.sets && s.sets[j + "-ec"].seqNo == 1
    ensures exists i, t :: i in s.sets && !MergedSelects(s, i, t)
  {
    var i := j + "-ec";
    var rsa, ec := s.sets[i].Jwks()[0], s.sets[j].Jwks()[1];
    assert SetInv(s.made, i, s.sets[i]) && SetInv(s.made, j, s.sets[j]);
    KidsCoincideExactlyWhen(i, Signing(1), j, EcSigning);
    OwnKeyVerifies(s, i, 0);
    OwnKeyVerifies(s, j, 1);
    var pi :| 0 <= pi < |s.order| && s.order[pi] == i;
    var pj :| 0 <= pj < |s.order| && s.order[pj] == j;
    assert i != j by { assert |i| == |j| + 3; }
    if pi < pj {
      ShadowedKeyFails(s, pi, pj, ec, EcSigning);
      assert !MergedSelects(s, j, Sign(map[], ec));
    } else {
      ShadowedKeyFails(s, pj, pi, rsa, Signing(1));
      assert !MergedSelects(s, i, Sign(map[], rsa));
    }
  }

  /** Selection over the merged list gives every issuer's own verdict on every token it accepts
      exactly when there is no such pair of issuers. */
  lemma MergedSelectionExactlyWhen(s: Store)
    requires KeysInv(s) && Ordered(s)
    ensures (forall i, t :: i in s.sets ==> MergedSelects(s, i, t)) <==> !EcPair(s)
  {
    if EcPair(s) {
      var j :| j in s.sets && (j + "-ec") in s.sets && s.sets[j + "-ec"].seqNo == 1;
      EcPairBreaksSelection(s, j);
    } else {
      forall i, t | i in s.sets ensures MergedSelects(s, i, t) {
        if Verify(t, s.sets[i].Jwks()).Some? {
          MergedSelectionRight(s, i, t);
        }
      }
    }
  }

  /** Such a pair is two requests away: after the first use of any x and of x-ec, a valid token of one of
      the two fails against the merged list. */
  lemma EcPairIsReached(x: string, now: nat)
    ensures var s := Run(State(EMPTY, map[], now), [Use(x), Use(x + "-ec")]).keys;
            && KeysInv(s) && Ordered(s) && EcPair(s)
            && exists i, t :: i in s.sets && !MergedSelects(s, i, t)
  {
    var start := State(EMPTY, map[], now);
    var es := [Use(x), Use(x + "-ec")];
    RunKeepsInv(start, es);
    var known := Step(start, Use(x));
    assert es[1..] == [Use(x + "-ec")];
    assert Run(known, [Use(x + "-ec")]) == Run(Step(known, Use(x + "-ec")), []);
    assert x + "-ec" != x by { assert |x + "-ec"| == |x| + 3; }
    EcPairBreaksSelection(Run(start, es).keys, x);
  }
}
