/** Key sets and key ids of one issuer (src/mock_idp/keys.py).

    Key generation is ideal: the generated keys form a ledger, and the identity of a
    key is its position in that ledger, so no two generated keys are the same key. */
module Keys {
  import opened Text

  datatype Kind = Rsa | Ec

  datatype Role = Signing(n: nat) | Alt | Decoy1 | Decoy2 | EcSigning | EcAlt

  /** The issuer label and the role a key was generated for; its kid is their rendering. */
  datatype KeyName = KeyName(issuer: string, role: Role)

  datatype Key = Key(id: nat, name: KeyName)
  {
    function Kid(): string {
      KidOf(name.issuer, name.role)
    }
  }

  datatype KeySet = KeySet(
    issuer: string, seqNo: nat, signing: Key, alt: Key, decoys: seq<Key>, ecSigning: Key, ecAlt: Key)
  {
    function Jwks(): (r: seq<Key>) {
      [signing, ecSigning] + decoys
    }

    function SigningKeyForAlg(alg: string): Key {
      if alg == "ES256" then ecSigning else signing
    }

    function AltKeyForAlg(alg: string): Key {
      if alg == "ES256" then ecAlt else alt
    }

    /** Rotation replaces the RSA signing key by the newly generated key `id`. */
    function Rotated(id: nat): KeySet {
      this.(seqNo := seqNo + 1, signing := Key(id, KeyName(issuer, Signing(seqNo + 1))))
    }
  }

  function KindOf(role: Role): Kind {
    if role.EcSigning? || role.EcAlt? then Ec else Rsa
  }

  /** The issuer string of an organisation's issuer: the label its first keys are created under, and
      the issuer its tokens name. */
  function Scoped(org: string, issuer: string): string {
    org + "/" + issuer
  }

  function Suffix(role: Role): string {
    match role
    case Signing(n) => Decimal(n)
    case Alt => "alt"
    case Decoy1 => "d1"
    case Decoy2 => "d2"
    case EcSigning => "ec-1"
    case EcAlt => "ec-alt"
  }

  function KidOf(issuer: string, role: Role): string {
    "mock-" + issuer + "-" + Suffix(role)
  }

  /** The six keys of a new issuer, generated in this order from ledger position `base` on. */
  function NewKeySet(issuer: string, base: nat): KeySet {
    KeySet(issuer, 1,
           Key(base, KeyName(issuer, Signing(1))),
           Key(base + 1, KeyName(issuer, Alt)),
           [Key(base + 2, KeyName(issuer, Decoy1)), Key(base + 3, KeyName(issuer, Decoy2))],
           Key(base + 4, KeyName(issuer, EcSigning)),
           Key(base + 5, KeyName(issuer, EcAlt)))
  }

  function NewNames(issuer: string): seq<KeyName> {
    [KeyName(issuer, Signing(1)), KeyName(issuer, Alt), KeyName(issuer, Decoy1),
     KeyName(issuer, Decoy2), KeyName(issuer, EcSigning), KeyName(issuer, EcAlt)]
  }

  // ── When do two key ids coincide? ─────────────────────────────────────────

  // A kid read backwards from its last dash: everything before it, and the dash-free tail.
  function KidHead(issuer: string, role: Role): string {
    "mock-" + issuer + (if KindOf(role).Ec? then "-ec" else "")
  }

  function KidTail(role: Role): (r: string)
    ensures '-' !in r
  {
    match role
    case EcSigning => "1"
    case EcAlt => "alt"
    case _ => Suffix(role)
  }

  lemma KidSplit(issuer: string, role: Role)
    ensures KidOf(issuer, role) == KidHead(issuer, role) + "-" + KidTail(role)
  {
  }

  predicate SameTail(r: Role, q: Role) {
    || r == q
    || (r == Signing(1) && q == EcSigning) || (q == Signing(1) && r == EcSigning)
    || (r == Alt && q == EcAlt) || (q == Alt && r == EcAlt)
  }

  lemma TailsEqual(r: Role, q: Role)
    ensures KidTail(r) == KidTail(q) <==> SameTail(r, q)
  {
    var t, u := KidTail(r), KidTail(q);
    assert Decimal(1) == "1";
    assert (r.Signing? || r.EcSigning?) <==> IsDigit(t[0]);
    assert (q.Signing? || q.EcSigning?) <==> IsDigit(u[0]);
    if t == u && IsDigit(t[0]) {
      DecimalInjective(if r.Signing? then r.n else 1, if q.Signing? then q.n else 1);
    } else if t == u {
      assert |t| == |u| && t[|t| - 1] == u[|u| - 1];
    }
  }

  /** Two roles of one issuer, or of two issuers whose labels differ by a final "-ec". */
  predicate SameKid(i: string, r: Role, j: string, q: Role) {
    || (i == j && r == q)
    || (i == j + "-ec" && ((r == Signing(1) && q == EcSigning) || (r == Alt && q == EcAlt)))
    || (j == i + "-ec" && ((q == Signing(1) && r == EcSigning) || (q == Alt && r == EcAlt)))
  }

  lemma HeadsEqual(i: string, r: Role, j: string, q: Role)
    ensures KidHead(i, r) == KidHead(j, q) <==>
            i + (if KindOf(r).Ec? then "-ec" else "") == j + (if KindOf(q).Ec? then "-ec" else "")
  {
    var x, y := i + (if KindOf(r).Ec? then "-ec" else ""), j + (if KindOf(q).Ec? then "-ec" else "");
    assert KidHead(i, r) == "mock-" + x && KidHead(j, q) == "mock-" + y;
    assert ("mock-" + x)[5..] == x && ("mock-" + y)[5..] == y;
  }

  lemma AppendInjective(i: string, j: string, t: string)
    requires i + t == j + t
    ensures i == j
  {
    assert i == (i + t)[..|i|] && j == (j + t)[..|j|];
  }

  /** The only clashes are those of `SameKid`: the proof reads both kids back from their last dash. */
  lemma KidsCoincideExactlyWhen(i: string, r: Role, j: string, q: Role)
    ensures KidOf(i, r) == KidOf(j, q) <==> SameKid(i, r, j, q)
  {
    KidSplit(i, r);
    KidSplit(j, q);
    TailsEqual(r, q);
    HeadsEqual(i, r, j, q);
    assert i + "" == i && j + "" == j;
    if KidOf(i, r) == KidOf(j, q) {
      LastDashUnique(KidHead(i, r), KidTail(r), KidHead(j, q), KidTail(q));
      if KindOf(r) == KindOf(q) {
        AppendInjective(i, j, if KindOf(r).Ec? then "-ec" else "");
      }
    }
  }

  // ── The kids, spelled out ─────────────────────────────────────────────────

  /** The kids of a new issuer's keys, and of the signing keys it rotates to. */
  lemma KidsSpelledOut(issuer: string, base: nat, ks: KeySet, id: nat)
    ensures var k := NewKeySet(issuer, base);
            && k.signing.Kid() == "mock-" + issuer + "-1" && k.alt.Kid() == "mock-" + issuer + "-alt"
            && |k.decoys| == 2
            && k.decoys[0].Kid() == "mock-" + issuer + "-d1" && k.decoys[1].Kid() == "mock-" + issuer + "-d2"
            && k.ecSigning.Kid() == "mock-" + issuer + "-ec-1" && k.ecAlt.Kid() == "mock-" + issuer + "-ec-alt"
    ensures ks.Rotated(id).signing.Kid() == "mock-" + ks.issuer + "-" + Decimal(ks.seqNo + 1)
  {
    assert Decimal(1) == "1";
  }
}
