/** The hosted key resolver of one organisation (src/mock_idp/org_registry.py): a cache in
    front of the table org_jwks. Operations of one issuer do not overlap here; overlapping
    loads are in OrgLoads. */
module OrgKeys {
  import opened Keys

  /** The JSON stored in org_jwks.key_data. The issuer label is not part of it. */
  datatype Row = Row(seqNo: nat, signing: Key, alt: Key, decoys: seq<Key>, ecSigning: Key, ecAlt: Key)

  function Serialize(ks: KeySet): Row {
    Row(ks.seqNo, ks.signing, ks.alt, ks.decoys, ks.ecSigning, ks.ecAlt)
  }

  function Deserialize(issuer: string, row: Row): KeySet {
    KeySet(issuer, row.seqNo, row.signing, row.alt, row.decoys, row.ecSigning, row.ecAlt)
  }

  /** `made` counts the keys generated so far, by any resolver. */
  datatype Resolver = Resolver(org: string, cache: map<string, KeySet>, table: map<(string, string), Row>, made: nat)

  datatype Op = Load(issuer: string) | Rotate(issuer: string) | Restart

  function LoadOrCreate(s: Resolver, issuer: string): (r: Resolver)
    ensures issuer in r.cache
  {
    if issuer in s.cache then s
    else if (s.org, issuer) in s.table then
      s.(cache := s.cache[issuer := Deserialize(issuer, s.table[(s.org, issuer)])])
    else
      var ks := NewKeySet(Scoped(s.org, issuer), s.made);
      s.(cache := s.cache[issuer := ks], table := s.table[(s.org, issuer) := Serialize(ks)], made := s.made + 6)
  }

  function RotateIssuer(s: Resolver, issuer: string): Resolver {
    var l := LoadOrCreate(s, issuer);
    var ks := l.cache[issuer].Rotated(l.made);
    l.(cache := l.cache[issuer := ks], table := l.table[(s.org, issuer) := Serialize(ks)], made := l.made + 1)
  }

  function Apply(s: Resolver, op: Op): Resolver {
    match op
    case Load(i) => LoadOrCreate(s, i)
    case Rotate(i) => RotateIssuer(s, i)
    case Restart => s.(cache := map[])
  }

  function Run(s: Resolver, ops: seq<Op>): Resolver
    decreases |ops|
  {
    if ops == [] then s else Run(Apply(s, ops[0]), ops[1..])
  }

  /** What a request for this issuer gets to see. */
  function Served(s: Resolver, issuer: string): KeySet {
    LoadOrCreate(s, issuer).cache[issuer]
  }

  function Published(s: Resolver, issuer: string): seq<Key> {
    Served(s, issuer).Jwks()
  }

  // ── Cache and table agree ─────────────────────────────────────────────────

  predicate Stored(s: Resolver, issuer: string) {
    (s.org, issuer) in s.table
  }

  predicate LabelOf(org: string, issuer: string, x: string) {
    x == issuer || x == Scoped(org, issuer)
  }

  /** A stored row: five keys carry the creation label for ever; the signing key carries the
      current number under either label, and number 1 only under the creation label. */
  predicate RowInv(org: string, issuer: string, row: Row) {
    var own := Scoped(org, issuer);
    && row.seqNo >= 1
    && row.signing.name.role == Signing(row.seqNo)
    && LabelOf(org, issuer, row.signing.name.issuer)
    && (row.seqNo == 1 ==> row.signing.name.issuer == own)
    && row.alt.name == KeyName(own, Alt)
    && |row.decoys| == 2
    && row.decoys[0].name == KeyName(own, Decoy1)
    && row.decoys[1].name == KeyName(own, Decoy2)
    && row.ecSigning.name == KeyName(own, EcSigning)
    && row.ecAlt.name == KeyName(own, EcAlt)
  }

  predicate IssuerInv(s: Resolver, issuer: string) {
    && (issuer in s.cache ==>
          && Stored(s, issuer)
          && Serialize(s.cache[issuer]) == s.table[(s.org, issuer)]
          && LabelOf(s.org, issuer, s.cache[issuer].issuer))
    && (Stored(s, issuer) ==> RowInv(s.org, issuer, s.table[(s.org, issuer)]))
  }

  ghost predicate Inv(s: Resolver) {
    forall i :: IssuerInv(s, i)
  }

  lemma LoadKeepsInv(s: Resolver, issuer: string)
    requires Inv(s)
    ensures Inv(LoadOrCreate(s, issuer))
  {
    forall i ensures IssuerInv(LoadOrCreate(s, issuer), i) {
      assert IssuerInv(s, i);
    }
  }

  lemma RotateKeepsInv(s: Resolver, issuer: string)
    requires Inv(s)
    ensures Inv(RotateIssuer(s, issuer))
  {
    LoadKeepsInv(s, issuer);
    forall i ensures IssuerInv(RotateIssuer(s, issuer), i) {
      assert IssuerInv(LoadOrCreate(s, issuer), i);
    }
  }

  /** Cached and stored key material and number agree after every operation. */
  lemma ApplyKeepsInv(s: Resolver, op: Op)
    requires Inv(s)
    ensures Inv(Apply(s, op))
  {
    match op
    case Load(i) => LoadKeepsInv(s, i);
    case Rotate(i) => RotateKeepsInv(s, i);
    case Restart =>
      forall i ensures IssuerInv(Apply(s, Restart), i) {
        assert IssuerInv(s, i);
      }
  }

  lemma {:induction false} RunKeepsInv(s: Resolver, ops: seq<Op>)
    requires Inv(s)
    ensures Inv(Run(s, ops)) && Run(s, ops).org == s.org
    decreases |ops|
  {
    if ops != [] {
      ApplyKeepsInv(s, ops[0]);
      RunKeepsInv(Apply(s, ops[0]), ops[1..]);
    }
  }

  // ── What a run does to a stored issuer ────────────────────────────────────

  function Rotations(ops: seq<Op>, issuer: string): nat {
    if ops == [] then 0 else (if ops[0] == Rotate(issuer) then 1 else 0) + Rotations(ops[1..], issuer)
  }

  /** Between two stored rows the number grew by `count`; nothing changes but the signing key,
      and without a rotation not even that. */
  predicate RowEvolves(before: Row, after: Row, count: nat) {
    && after == before.(seqNo := before.seqNo + count, signing := after.signing)
    && (count == 0 ==> after == before)
  }

  lemma ApplyEvolves(s: Resolver, op: Op, issuer: string)
    requires Inv(s) && Stored(s, issuer)
    ensures Stored(Apply(s, op), issuer)
    ensures RowEvolves(s.table[(s.org, issuer)], Apply(s, op).table[(s.org, issuer)],
                       if op == Rotate(issuer) then 1 else 0)
  {
    assert IssuerInv(s, issuer);
  }

  lemma {:induction false} RunEvolves(s: Resolver, ops: seq<Op>, issuer: string)
    requires Inv(s) && Stored(s, issuer)
    ensures (s.org, issuer) in Run(s, ops).table
    ensures RowEvolves(s.table[(s.org, issuer)], Run(s, ops).table[(s.org, issuer)], Rotations(ops, issuer))
    decreases |ops|
  {
    if ops != [] {
      var s1 := NextState(s, ops[0], issuer);
      RunEvolves(s1, ops[1..], issuer);
      RowsCompose(s.table[(s.org, issuer)], s1.table[(s.org, issuer)], Run(s1, ops[1..]).table[(s.org, issuer)],
                  if ops[0] == Rotate(issuer) then 1 else 0, Rotations(ops[1..], issuer));
    }
  }

  lemma NextState(s: Resolver, op: Op, issuer: string) returns (r: Resolver)
    requires Inv(s) && Stored(s, issuer)
    ensures r == Apply(s, op) && Inv(r) && r.org == s.org && (s.org, issuer) in r.table
    ensures RowEvolves(s.table[(s.org, issuer)], r.table[(s.org, issuer)], if op == Rotate(issuer) then 1 else 0)
  {
    ApplyEvolves(s, op, issuer);
    ApplyKeepsInv(s, op);
    r := Apply(s, op);
  }

  lemma RowsCompose(a: Row, b: Row, c: Row, m: nat, n: nat)
    requires RowEvolves(a, b, m) && RowEvolves(b, c, n)
    ensures RowEvolves(a, c, m + n)
  {
  }

  lemma ServedIsStored(s: Resolver, issuer: string)
    requires Inv(s) && Stored(s, issuer)
    ensures Serialize(Served(s, issuer)) == s.table[(s.org, issuer)]
    ensures RowInv(s.org, issuer, s.table[(s.org, issuer)])
  {
    assert IssuerInv(s, issuer);
  }

  /** Two stored rows of an issuer: the signing kid tells whether there was a rotation between. */
  lemma EvolvedRowPublishes(org: string, issuer: string, before: KeySet, after: KeySet, count: nat)
    requires RowInv(org, issuer, Serialize(before)) && RowInv(org, issuer, Serialize(after))
    requires RowEvolves(Serialize(before), Serialize(after), count)
    ensures after.Jwks()[1..] == before.Jwks()[1..]
    ensures after.Jwks()[0].Kid() == before.Jwks()[0].Kid() <==> count == 0
    ensures after.Jwks() == before.Jwks() <==> count == 0
  {
    assert after.Jwks()[1..] == [after.ecSigning] + after.decoys;
    assert before.Jwks()[1..] == [before.ecSigning] + before.decoys;
    var a, b := before.signing.name, after.signing.name;
    KidsCoincideExactlyWhen(a.issuer, a.role, b.issuer, b.role);
  }

  /** Over any run of loads, rotations and restarts, the JWKS of an issuer keeps all entries but
      the first; it changes at all exactly when the issuer was rotated, and the signing kid then
      is one that was not in use before. */
  lemma {:induction false} PublishedOverRun(s: Resolver, ops: seq<Op>, issuer: string)
    requires Inv(s) && Stored(s, issuer)
    ensures Published(Run(s, ops), issuer)[1..] == Published(s, issuer)[1..]
    ensures Published(Run(s, ops), issuer) == Published(s, issuer) <==> Rotate(issuer) !in ops
    ensures Published(Run(s, ops), issuer)[0].Kid() == Published(s, issuer)[0].Kid() <==> Rotate(issuer) !in ops
    ensures Served(Run(s, ops), issuer).seqNo == Served(s, issuer).seqNo + Rotations(ops, issuer)
  {
    var r := Run(s, ops);
    RunKeepsInv(s, ops);
    RunEvolves(s, ops, issuer);
    ServedIsStored(s, issuer);
    ServedIsStored(r, issuer);
    RotationsCount(ops, issuer);
    EvolvedRowPublishes(s.org, issuer, Served(s, issuer), Served(r, issuer), Rotations(ops, issuer));
  }

  lemma {:induction false} RotationsCount(ops: seq<Op>, issuer: string)
    ensures Rotations(ops, issuer) == 0 <==> Rotate(issuer) !in ops
  {
    if ops != [] {
      RotationsCount(ops[1..], issuer);
      assert ops == [ops[0]] + ops[1..];
    }
  }

  function SixKeys(ks: KeySet): seq<Key> {
    [ks.signing, ks.alt] + ks.decoys + [ks.ecSigning, ks.ecAlt]
  }

  /** The six kids served for a stored issuer are pairwise distinct, under either label. */
  lemma SixKidsDistinct(s: Resolver, issuer: string)
    requires Inv(s) && Stored(s, issuer)
    ensures |SixKeys(Served(s, issuer))| == 6
    ensures forall m, n :: 0 <= m < n < 6 ==>
              SixKeys(Served(s, issuer))[m].Kid() != SixKeys(Served(s, issuer))[n].Kid()
  {
    ServedIsStored(s, issuer);
    var keys := SixKeys(Served(s, issuer));
    var own := Scoped(s.org, issuer);
    assert |own| > |issuer| && |own + "-ec"| == |own| + 3;
    forall m, n | 0 <= m < n < 6 ensures keys[m].Kid() != keys[n].Kid() {
      var a, b := keys[m].name, keys[n].name;
      KidsCoincideExactlyWhen(a.issuer, a.role, b.issuer, b.role);
    }
  }

  // ── The label ─────────────────────────────────────────────────────────────

  /** The creation label is in the cache and nowhere else. */
  predicate KeepsLabel(s: Resolver, issuer: string) {
    issuer in s.cache && s.cache[issuer].issuer == Scoped(s.org, issuer)
  }

  /** A stored issuer that is not cached, or cached from storage, is known by its bare name. */
  predicate LostLabel(s: Resolver, issuer: string) {
    Stored(s, issuer) && (issuer in s.cache ==> s.cache[issuer].issuer == issuer)
  }

  lemma {:induction false} LostLabelStaysLost(s: Resolver, ops: seq<Op>, issuer: string)
    requires LostLabel(s, issuer)
    ensures LostLabel(Run(s, ops), issuer) && Run(s, ops).org == s.org
    decreases |ops|
  {
    if ops != [] {
      LostLabelStaysLost(Apply(s, ops[0]), ops[1..], issuer);
    }
  }

  lemma {:induction false} LabelLostByRestart(s: Resolver, ops: seq<Op>, issuer: string)
    requires Stored(s, issuer) && KeepsLabel(s, issuer)
    ensures Run(s, ops).org == s.org
    ensures if Restart in ops then LostLabel(Run(s, ops), issuer) else KeepsLabel(Run(s, ops), issuer)
    decreases |ops|
  {
    if ops != [] {
      assert ops == [ops[0]] + ops[1..];
      if ops[0] == Restart {
        LostLabelStaysLost(Apply(s, Restart), ops[1..], issuer);
      } else {
        LabelLostByRestart(Apply(s, ops[0]), ops[1..], issuer);
      }
    }
  }

  /** An issuer served under its creation label is served under it for ever, exactly if the process
      never restarts: the stored row does not hold the label. */
  lemma LabelKeptExactlyWithoutRestart(s: Resolver, ops: seq<Op>, issuer: string)
    requires Stored(s, issuer) && KeepsLabel(s, issuer)
    ensures Served(Run(s, ops), issuer).issuer == (if Restart in ops then issuer else Scoped(s.org, issuer))
    ensures Served(Run(s, ops), issuer).issuer == Scoped(s.org, issuer) <==> Restart !in ops
  {
    LabelLostByRestart(s, ops, issuer);
    assert |Scoped(s.org, issuer)| > |issuer|;
  }

  /** A rotation names its key after the label served before it: after the bare issuer once there was
      a restart, and after the creation label otherwise. */
  lemma RotationNamesKey(s: Resolver, issuer: string)
    ensures Published(RotateIssuer(s, issuer), issuer)[0].name
            == KeyName(Served(s, issuer).issuer, Signing(Served(s, issuer).seqNo + 1))
  {
  }

  /** The first keys of a hosted issuer are named after its organisation and its slug. */
  lemma FirstKidsSpelledOut(s: Resolver, issuer: string)
    requires issuer !in s.cache && !Stored(s, issuer)
    ensures |Published(s, issuer)| == 4
    ensures Published(s, issuer)[0].Kid() == "mock-" + s.org + "/" + issuer + "-1"
    ensures Published(s, issuer)[1].Kid() == "mock-" + s.org + "/" + issuer + "-ec-1"
  {
    var full := s.org + "/" + issuer;
    KidsSpelledOut(full, s.made, NewKeySet(full, s.made), 0);
    assert "mock-" + full == "mock-" + s.org + "/" + issuer;
  }
}
