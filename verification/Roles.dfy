/** Role resolution and the audience check (src/mock_idp/tokens.py). `apps` is the global
    dictionary of client apps, keyed by audience. */
module Roles {
  import opened Wrappers
  import opened Models

  type Apps = map<string, App>

  /** Grants are looked up by the config key of a service principal, not by the id it came under. */
  function GrantsKey(key: string, identity: Identity): string {
    if identity.OfPrincipal? && identity.sp.name != "" then identity.sp.name else key
  }

  function AudienceRoles(key: string, identity: Identity, aud: string, apps: Apps): seq<string> {
    if aud in apps then GetOr(apps[aud].grants, GrantsKey(key, identity), []) else identity.Core().roles
  }

  function RoleLayers(key: string, identity: Identity, aud: string, apps: Apps): seq<string> {
    identity.Core().tenantRealmRoles + identity.Core().realmRoles + AudienceRoles(key, identity, aud, apps)
  }

  function Dedup(s: seq<string>): seq<string> {
    if s == [] then []
    else
      var front, last := s[..|s| - 1], s[|s| - 1];
      if last in front then Dedup(front) else Dedup(front) + [last]
  }

  function ResolveRoles(key: string, identity: Identity, aud: string, apps: Apps): seq<string> {
    Dedup(RoleLayers(key, identity, aud, apps))
  }

  method MergeRoles(key: string, identity: Identity, aud: string, apps: Apps) returns (result: seq<string>)
    ensures result == ResolveRoles(key, identity, aud, apps)
  {
    var layers := RoleLayers(key, identity, aud, apps);
    var seen: set<string> := {};
    result := [];
    var n := 0;
    while n < |layers|
      invariant 0 <= n <= |layers|
      invariant result == Dedup(layers[..n])
      invariant forall r :: r in seen <==> r in layers[..n]
    {
      var r := layers[n];
      assert layers[..n + 1][..n] == layers[..n] && layers[..n + 1] == layers[..n] + [r];
      if r !in seen {
        seen := seen + {r};
        result := result + [r];
      }
      n := n + 1;
    }
    assert layers[..n] == layers;
  }

  // ── The role list is the first-occurrence merge, and the only one ─────────

  function FirstIndex(s: seq<string>, x: string): nat
    requires x in s
  {
    if s[0] == x then 0 else FirstIndex(s[1..], x) + 1
  }

  /** Same elements, each once, in the order of their first occurrence in `s`. */
  ghost predicate FirstOccurrences(s: seq<string>, r: seq<string>) {
    && (forall x :: x in r <==> x in s)
    && (forall m, n :: 0 <= m < n < |r| ==> FirstIndex(s, r[m]) < FirstIndex(s, r[n]))
  }

  lemma {:induction false} FirstIndexAppend(s: seq<string>, t: seq<string>, x: string)
    requires x in s || x in t
    ensures x in s ==> FirstIndex(s + t, x) == FirstIndex(s, x) < |s|
    ensures x !in s ==> FirstIndex(s + t, x) == |s| + FirstIndex(t, x)
  {
    if s == [] {
      assert s + t == t;
    } else {
      assert (s + t)[1..] == s[1..] + t;
      if s[0] != x {
        FirstIndexAppend(s[1..], t, x);
      }
    }
  }

  lemma {:induction false} DedupIsMerge(s: seq<string>)
    ensures FirstOccurrences(s, Dedup(s))
  {
    if s != [] {
      var front, last := s[..|s| - 1], s[|s| - 1];
      var r := Dedup(front);
      DedupIsMerge(front);
      assert s == front + [last];
      forall x | x in s ensures x in front ==> FirstIndex(s, x) == FirstIndex(front, x) < |front| {
        FirstIndexAppend(front, [last], x);
      }
      if last !in front {
        FirstIndexAppend(front, [last], last);
        forall m, n | 0 <= m < n < |r + [last]|
          ensures FirstIndex(s, (r + [last])[m]) < FirstIndex(s, (r + [last])[n])
        {
          assert r[m] in front;
        }
      }
    }
  }

  /** Two lists that rise in their first occurrences and have the same elements are the same. */
  lemma {:induction false} MergeUnique(s: seq<string>, a: seq<string>, b: seq<string>)
    requires forall x :: x in a <==> x in b
    requires forall x :: x in a ==> x in s
    requires forall m, n :: 0 <= m < n < |a| ==> FirstIndex(s, a[m]) < FirstIndex(s, a[n])
    requires forall m, n :: 0 <= m < n < |b| ==> FirstIndex(s, b[m]) < FirstIndex(s, b[n])
    ensures a == b
  {
    assert b != [] ==> b[0] in a;
    if a != [] {
      assert a[0] in b;
      var fa, fb, x := a[..|a| - 1], b[..|b| - 1], a[|a| - 1];
      SameLast(s, a, b);
      assert a == fa + [x] && b == fb + [x];
      assert x !in fa && x !in fb;
      forall z ensures z in fa <==> z in fb {
        assert z in fa <==> z in a && z != x;
        assert z in fb <==> z in b && z != x;
      }
      MergeUnique(s, fa, fb);
    }
  }

  lemma SameLast(s: seq<string>, a: seq<string>, b: seq<string>)
    requires a != [] && b != []
    requires forall x :: x in a <==> x in b
    requires forall x :: x in a ==> x in s
    requires forall m, n :: 0 <= m < n < |a| ==> FirstIndex(s, a[m]) < FirstIndex(s, a[n])
    requires forall m, n :: 0 <= m < n < |b| ==> FirstIndex(s, b[m]) < FirstIndex(s, b[n])
    ensures a[|a| - 1] == b[|b| - 1]
  {
    var x, y := a[|a| - 1], b[|b| - 1];
    assert x in b && y in a;
    var m :| 0 <= m < |b| && b[m] == x;
    var n :| 0 <= n < |a| && a[n] == y;
    assert FirstIndex(s, x) <= FirstIndex(s, y) && FirstIndex(s, y) <= FirstIndex(s, x);
    assert m == |b| - 1;
  }

  /** The tenant's realm roles, then the identity's own, then those for the audience: the grants of the
      app that is registered for it, under the user's name or the service principal's config key (or
      the id of the request, should that be empty), and without an app the identity's plain roles. */
  function ThreeLayers(key: string, identity: Identity, aud: string, apps: Apps): seq<string> {
    match identity
    case OfUser(user) =>
      user.core.tenantRealmRoles + user.core.realmRoles +
      (if aud !in apps then user.core.roles else if key in apps[aud].grants then apps[aud].grants[key] else [])
    case OfPrincipal(sp) =>
      var holder := if sp.name == "" then key else sp.name;
      sp.core.tenantRealmRoles + sp.core.realmRoles +
      (if aud !in apps then sp.core.roles else if holder in apps[aud].grants then apps[aud].grants[holder] else [])
  }

  /** The resolved roles are the duplicate-free merge of the three layers in order, first
      occurrence winning, and no other list is. */
  lemma RolesAreTheMerge(key: string, identity: Identity, aud: string, apps: Apps, r: seq<string>)
    ensures FirstOccurrences(ThreeLayers(key, identity, aud, apps), r) <==> r == ResolveRoles(key, identity, aud, apps)
  {
    var layers := RoleLayers(key, identity, aud, apps);
    DedupIsMerge(layers);
    if FirstOccurrences(layers, r) {
      MergeUnique(layers, r, Dedup(layers));
    }
  }

  // ── The audience check ────────────────────────────────────────────────────

  /** An audience with a registered app needs a grant there; any other must be on the identity's list. */
  predicate Entitled(key: string, identity: Identity, aud: string, apps: Apps) {
    if aud in apps then GrantsKey(key, identity) in apps[aud].grants else aud in identity.Core().allowedAudiences
  }

  /** True when the request may go on, false for the invalid_target reply. */
  function CheckAudience(
      key: string, identity: Identity, aud: string, mode: string, globalMode: string, apps: Apps): bool
  {
    var effective := if mode == "lax" || mode == "strict" then mode else globalMode;
    || effective != "strict"
    || (identity.OfPrincipal? && identity.sp.overrideAnyClaim)
    || Entitled(key, identity, aud, apps)
  }

  /** Same verdict and same roles under both ids, for every audience, mode and set of apps. */
  ghost predicate TreatedAlike(sp: Principal, key: string, other: string) {
    && (forall aud, mode, globalMode, apps ::
          CheckAudience(key, OfPrincipal(sp), aud, mode, globalMode, apps)
          == CheckAudience(other, OfPrincipal(sp), aud, mode, globalMode, apps))
    && (forall aud, apps ::
          ResolveRoles(key, OfPrincipal(sp), aud, apps) == ResolveRoles(other, OfPrincipal(sp), aud, apps))
  }

  lemma {:induction false} FreshRole(s: seq<string>) returns (r: string)
    ensures forall x :: x in s ==> |x| < |r|
  {
    if s == [] {
      r := "";
    } else {
      r := FreshRole(s[1..]);
      r := r + s[0] + "x";
    }
  }

  lemma EmptyNameTellsIdsApart(sp: Principal, key: string, other: string) returns (aud: string, apps: Apps)
    requires sp.name == "" && key != other
    ensures ResolveRoles(key, OfPrincipal(sp), aud, apps) != ResolveRoles(other, OfPrincipal(sp), aud, apps)
  {
    var realm := sp.core.tenantRealmRoles + sp.core.realmRoles;
    var role := FreshRole(realm);
    aud, apps := "a", map["a" := App(None, [], map[key := [role]])];
    assert RoleLayers(key, OfPrincipal(sp), aud, apps) == realm + [role];
    assert RoleLayers(other, OfPrincipal(sp), aud, apps) == realm + [];
    DedupIsMerge(realm + [role]);
    DedupIsMerge(realm + []);
    assert role in realm + [role] && role !in realm + [];
  }

  /** A service principal is treated alike whether it is reached by its config key or by its
      client id exactly when its config key is not empty (or the two ids are the same): with an
      empty key, grants are looked up under whatever id the request used. */
  lemma AliasTreatedAlikeExactlyWhen(sp: Principal, key: string, other: string)
    ensures TreatedAlike(sp, key, other) <==> sp.name != "" || key == other
  {
    if sp.name == "" && key != other {
      var aud, apps := EmptyNameTellsIdsApart(sp, key, other);
    }
  }
}
