/** The mutable key objects of src/mock_idp/keys.py: the per-issuer key set that rotates in
    place and the process-wide dictionary of them, specified by the values in Stores. */
module KeyObjects {
  import opened Keys
  import opened Stores

  /** Stands for `RSAKey.generate_key` and `ECKey.generate_key`: every key is a new one. */
  class KeyGenerator {
    var made: seq<KeyName>

    constructor ()
      ensures made == []
    {
      made := [];
    }

    method Generate(issuer: string, role: Role) returns (key: Key)
      modifies this
      ensures key == Key(|old(made)|, KeyName(issuer, role))
      ensures made == old(made) + [KeyName(issuer, role)]
    {
      key := Key(|made|, KeyName(issuer, role));
      made := made + [KeyName(issuer, role)];
    }
  }

  class IssuerKeys {
    var issuer: string
    var seqNo: nat
    var signing: Key
    var alt: Key
    var decoys: seq<Key>
    var ecSigning: Key
    var ecAlt: Key

    function View(): KeySet
      reads this
    {
      KeySet(issuer, seqNo, signing, alt, decoys, ecSigning, ecAlt)
    }

    constructor (issuer: string, gen: KeyGenerator)
      modifies gen
      ensures View() == NewKeySet(issuer, |old(gen.made)|)
      ensures gen.made == old(gen.made) + NewNames(issuer)
    {
      this.issuer := issuer;
      this.seqNo := 1;
      var k1 := gen.Generate(issuer, Signing(1));
      var k2 := gen.Generate(issuer, Alt);
      var k3 := gen.Generate(issuer, Decoy1);
      var k4 := gen.Generate(issuer, Decoy2);
      var k5 := gen.Generate(issuer, EcSigning);
      var k6 := gen.Generate(issuer, EcAlt);
      this.signing := k1;
      this.alt := k2;
      this.decoys := [k3, k4];
      this.ecSigning := k5;
      this.ecAlt := k6;
    }

    /** Rebuilds a key set from stored parts, as object.__new__ and field assignments do. */
    constructor Restore(ks: KeySet)
      ensures View() == ks
    {
      issuer := ks.issuer;
      seqNo := ks.seqNo;
      signing := ks.signing;
      alt := ks.alt;
      decoys := ks.decoys;
      ecSigning := ks.ecSigning;
      ecAlt := ks.ecAlt;
    }

    method Rotate(gen: KeyGenerator) returns (key: Key)
      modifies this, gen
      ensures View() == old(View()).Rotated(|old(gen.made)|)
      ensures gen.made == old(gen.made) + [KeyName(old(issuer), Signing(old(seqNo) + 1))]
      ensures key == View().signing
    {
      seqNo := seqNo + 1;
      signing := gen.Generate(issuer, Signing(seqNo));
      key := signing;
    }

    method JwksKeys() returns (keys: seq<Key>)
      ensures keys == View().Jwks()
    {
      keys := [signing, ecSigning] + decoys;
    }
  }

  function SigningKids(sets: map<string, KeySet>): map<string, string> {
    map i | i in sets :: sets[i].signing.Kid()
  }

  /** The kids reported while the named issuers are rotated one after the other. */
  function RotatedKids(s: Store, names: seq<string>): map<string, string> {
    if names == [] then map[]
    else
      var last := names[|names| - 1];
      var sets := RotateEach(s, names).sets;
      var kids := RotatedKids(s, names[..|names| - 1]);
      if last in sets then kids[last := sets[last].signing.Kid()] else kids
  }

  lemma RotateEachStep(s: Store, names: seq<string>, n: nat)
    requires n < |names| && names[n] in s.sets
    ensures names[n] in RotateEach(s, names[..n]).sets
    ensures RotateEach(s, names[..n + 1]) == RotateKnown(RotateEach(s, names[..n]), names[n])
    ensures RotatedKids(s, names[..n + 1]) ==
            RotatedKids(s, names[..n])[names[n] := RotateEach(s, names[..n + 1]).sets[names[n]].signing.Kid()]
  {
    RotateEachKeepsOrder(s, names[..n]);
    assert names[..n + 1][..n] == names[..n];
  }

  lemma {:induction false} RotatedKidsAreSigningKids(s: Store, names: seq<string>)
    requires forall i :: i in names ==> i in s.sets
    ensures RotatedKids(s, names) == map i | i in RotateEach(s, names).sets && i in names
                                       :: RotateEach(s, names).sets[i].signing.Kid()
  {
    if names != [] {
      var front, last := names[..|names| - 1], names[|names| - 1];
      RotatedKidsAreSigningKids(s, front);
      RotateEachKeepsOrder(s, front);
      assert forall i :: i in names <==> i in front || i == last;
    }
  }

  /** Rotating all reports the new signing kid of every known issuer, and of no other. */
  lemma RotatingAllReportsEveryKid(s: Store)
    requires Ordered(s)
    ensures RotatedKids(s, s.order) == SigningKids(RotateAll(s).sets)
  {
    RotatedKidsAreSigningKids(s, s.order);
    RotateEachKeepsOrder(s, s.order);
  }

  /** The global `_stores`: `order` is the insertion order of the dictionary's keys. */
  class KeyStore {
    const gen: KeyGenerator
    var order: seq<string>
    var stores: map<string, IssuerKeys>

    ghost predicate Valid()
      reads this
    {
      && (forall i :: i in order ==> i in stores)
      && (forall i :: i in stores ==> i in order)
      && (forall m, n :: 0 <= m < n < |order| ==> order[m] != order[n])
      && (forall i, j :: i in stores && j in stores && i != j ==> stores[i] != stores[j])
    }

    ghost function View(): Store
      reads this, gen, stores.Values
    {
      Store(order, map i | i in stores :: stores[i].View(), gen.made)
    }

    constructor ()
      ensures Valid() && View() == EMPTY
      ensures fresh(gen) && stores == map[]
    {
      gen := new KeyGenerator();
      order := [];
      stores := map[];
    }

    /** Lazy creation on first use; known issuers keep their object. */
    method Get(issuer: string) returns (keys: IssuerKeys)
      requires Valid()
      modifies this, gen
      ensures Valid() && View() == Stores.Get(old(View()), issuer)
      ensures issuer in stores && keys == stores[issuer]
      ensures forall i :: i in old(stores) ==> i in stores && stores[i] == old(stores[i])
      ensures stores.Keys == old(stores.Keys) + {issuer}
      ensures issuer !in old(stores) ==> fresh(keys)
      ensures fresh(stores.Values - old(stores.Values))
    {
      if issuer !in stores {
        var created := new IssuerKeys(issuer, gen);
        Insert(issuer, created);
      }
      keys := stores[issuer];
    }

    /** The dictionary insertion on its own. */
    method Insert(issuer: string, created: IssuerKeys)
      requires Valid() && issuer !in stores && created !in stores.Values
      modifies this
      ensures Valid()
      ensures stores == old(stores)[issuer := created] && order == old(order) + [issuer]
      ensures View() == Store(order, old(View()).sets[issuer := created.View()], gen.made)
    {
      ghost var before := View();
      stores := stores[issuer := created];
      order := order + [issuer];
      assert created == stores[issuer];
      assert View().sets == before.sets[issuer := created.View()];
    }

    method RotateKnown(issuer: string) returns (key: Key)
      requires Valid() && issuer in stores
      modifies gen, stores.Values
      ensures View() == Stores.RotateKnown(old(View()), issuer)
      ensures key == View().sets[issuer].signing
    {
      ghost var before := View();
      var keys := stores[issuer];
      key := keys.Rotate(gen);
      assert forall i :: i in stores && i != issuer ==> stores[i].View() == before.sets[i];
    }

    method Rotate(issuer: string) returns (key: Key)
      requires Valid()
      modifies this, gen, stores.Values
      ensures Valid() && View() == Stores.Rotate(old(View()), issuer)
      ensures key == View().sets[issuer].signing
      ensures fresh(stores.Values - old(stores.Values))
    {
      var _ := Get(issuer);
      key := RotateKnown(issuer);
    }

    /** Rotates every issuer known at the time of the call and reports the new signing kids. */
    method RotateAll() returns (kids: map<string, string>)
      requires Valid()
      modifies gen, stores.Values
      ensures View() == Stores.RotateAll(old(View()))
      ensures kids == SigningKids(View().sets)
    {
      ghost var before := View();
      kids := map[];
      var n := 0;
      while n < |order|
        invariant 0 <= n <= |order|
        invariant Valid()
        invariant View() == RotateEach(before, order[..n])
        invariant kids == RotatedKids(before, order[..n])
      {
        RotateEachStep(before, order, n);
        var key := RotateKnown(order[n]);
        kids := kids[order[n] := key.Kid()];
        n := n + 1;
      }
      assert order[..n] == order;
      RotatingAllReportsEveryKid(before);
    }

    method AllSigningKids() returns (kids: map<string, string>)
      requires Valid()
      ensures kids == SigningKids(View().sets)
    {
      kids := map i | i in stores :: stores[i].signing.Kid();
    }

    method AllJwksKeys() returns (keys: seq<Key>)
      requires Valid()
      ensures keys == JwksOf(View().sets, order)
    {
      ghost var sets := View().sets;
      keys := [];
      var n := 0;
      while n < |order|
        invariant 0 <= n <= |order|
        invariant keys == JwksOf(sets, order[..n])
      {
        JwksOfOneMore(sets, order, n);
        var more := stores[order[n]].JwksKeys();
        keys := keys + more;
        n := n + 1;
      }
      assert order[..n] == order;
    }
  }
}
