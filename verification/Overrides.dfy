/** Test hooks that edit the claims (src/mock_idp/tokens.py): form overrides, omitted claims
    and the role list from a header. */
module Overrides {
  import opened Wrappers
  import opened Text
  import opened Tokens

  const LIST_CLAIMS := {"roles", "groups", "amr"}
  const TIME_CLAIMS := {"exp", "iat", "nbf"}
  const RESERVED := {
    "grant_type", "client_id", "client_secret", "username", "password", "resource", "scope", "iss"}

  predicate Overridable(k: string, allowIss: bool) {
    k != "" && if k == "iss" then allowIss else k !in RESERVED
  }

  /** What a form field becomes as a claim; `parse` is Python's int on text. */
  function ClaimFor(k: string, v: string, parse: ParseInt): Value {
    if k in LIST_CLAIMS then Strs(ParseList(v))
    else if k in TIME_CLAIMS && parse(v).Some? then Num(parse(v).value)
    else Str(v)
  }

  /** Each overridable field of the form replaces the claim of its name; all other claims stay. */
  function Overridden(claims: Claims, form: map<string, string>, allowIss: bool, parse: ParseInt): Claims {
    claims + map k | k in form && Overridable(k, allowIss) :: ClaimFor(k, form[k], parse)
  }

  function OneField(claims: Claims, k: string, v: string, allowIss: bool, parse: ParseInt): Claims {
    if Overridable(k, allowIss) then claims[k := ClaimFor(k, v, parse)] else claims
  }

  lemma {:induction false} OverriddenByLastField(
      claims: Claims, form: seq<(string, string)>, n: nat, allowIss: bool, parse: ParseInt)
    requires n < |form|
    ensures Overridden(claims, FromPairs(form[..n + 1]), allowIss, parse)
            == OneField(Overridden(claims, FromPairs(form[..n]), allowIss, parse), form[n].0, form[n].1, allowIss, parse)
  {
    assert form[..n + 1][..n] == form[..n];
    assert FromPairs(form[..n + 1]) == FromPairs(form[..n])[form[n].0 := form[n].1];
  }

  method OverrideField(claims: Dict<Value>, k: string, v: string, allowIss: bool, parse: ParseInt)
    modifies claims
    ensures claims.m == OneField(old(claims.m), k, v, allowIss, parse)
  {
    if k == "" {
      return;
    }
    if k == "iss" {
      if allowIss {
        claims.m := claims.m["iss" := Str(v)];
      }
      return;
    }
    if k in RESERVED {
      return;
    }
    if k in LIST_CLAIMS {
      claims.m := claims.m[k := Strs(ParseList(v))];
    } else if k in TIME_CLAIMS {
      var parsed := parse(v);
      claims.m := claims.m[k := if parsed.Some? then Num(parsed.value) else Str(v)];
    } else {
      claims.m := claims.m[k := Str(v)];
    }
  }

  method ApplyOverrides(claims: Dict<Value>, form: seq<(string, string)>, allowIss: bool, parse: ParseInt)
    modifies claims
    ensures claims.m == Overridden(old(claims.m), FromPairs(form), allowIss, parse)
  {
    ghost var before := claims.m;
    var n := 0;
    while n < |form|
      invariant 0 <= n <= |form|
      invariant claims.m == Overridden(before, FromPairs(form[..n]), allowIss, parse)
    {
      OverriddenByLastField(before, form, n, allowIss, parse);
      OverrideField(claims, form[n].0, form[n].1, allowIss, parse);
      n := n + 1;
    }
    assert form[..n] == form;
  }

  function Without(claims: Claims, names: seq<string>): Claims {
    map k | k in claims && k !in names :: claims[k]
  }

  /** `header` is the X-Omit-Claims header. */
  function Omitted(claims: Claims, header: Option<string>): Claims {
    Without(claims, ParseList(if header.Some? then header.value else ""))
  }

  method Omit(claims: Dict<Value>, header: Option<string>)
    modifies claims
    ensures claims.m == Omitted(old(claims.m), header)
  {
    var names := Split(if header.Some? then header.value else "", ',');
    var n := 0;
    while n < |names|
      invariant 0 <= n <= |names|
      invariant claims.m == Without(old(claims.m), Trimmed(names[..n]))
    {
      var name := Strip(names[n]);
      OneMoreName(old(claims.m), names, n);
      if name != "" {
        claims.m := claims.m - {name};
      }
      n := n + 1;
    }
    assert names[..n] == names;
  }

  lemma WithoutOne(claims: Claims, names: seq<string>, name: string)
    ensures Without(claims, names + [name]) == Without(claims, names) - {name}
  {
  }

  lemma OneMoreName(claims: Claims, pieces: seq<string>, n: nat)
    requires n < |pieces|
    ensures var before := Without(claims, Trimmed(pieces[..n]));
            Without(claims, Trimmed(pieces[..n + 1])) ==
            if Strip(pieces[n]) != "" then before - {Strip(pieces[n])} else before
  {
    TrimmedSnoc(pieces[..n], pieces[n]);
    assert pieces[..n + 1] == pieces[..n] + [pieces[n]];
    assert Trimmed(pieces[..n]) + [] == Trimmed(pieces[..n]);
    WithoutOne(claims, Trimmed(pieces[..n]), Strip(pieces[n]));
  }

  lemma {:induction false} TrimmedSnoc(pieces: seq<string>, last: string)
    ensures Trimmed(pieces + [last]) == Trimmed(pieces) + if Strip(last) != "" then [Strip(last)] else []
  {
    if pieces == [] {
      assert pieces + [last] == [last];
    } else {
      assert (pieces + [last])[1..] == pieces[1..] + [last];
      TrimmedSnoc(pieces[1..], last);
    }
  }

  function RolesOverride(roles: seq<string>, header: Option<string>): seq<string> {
    if header.None? then roles else ParseList(header.value)
  }

  // ── What overriding can and cannot do ─────────────────────────────────────

  /** Reserved names are never changed, and iss only when allowed; every other claim that the
      form does not name keeps its value. */
  lemma OverridesRespectReserved(claims: Claims, form: map<string, string>, allowIss: bool, parse: ParseInt, k: string)
    requires k in RESERVED && (k == "iss" ==> !allowIss || k !in form)
    ensures Lookup(Overridden(claims, form, allowIss, parse), k) == Lookup(claims, k)
  {
  }

  /** Applying the same form twice changes nothing more. */
  lemma OverridesIdempotent(claims: Claims, form: map<string, string>, allowIss: bool, parse: ParseInt)
    ensures var once := Overridden(claims, form, allowIss, parse);
            Overridden(once, form, allowIss, parse) == once
  {
  }

  predicate DistinctFields(form: seq<(string, string)>) {
    forall m, n :: 0 <= m < n < |form| ==> form[m].0 != form[n].0
  }

  lemma {:induction false} FromPairsHolds(form: seq<(string, string)>, k: string, v: string)
    requires DistinctFields(form)
    ensures k in FromPairs(form) && FromPairs(form)[k] == v <==> (k, v) in form
  {
    if form != [] {
      var front, last := form[..|form| - 1], form[|form| - 1];
      assert form == front + [last];
      FromPairsHolds(front, k, v);
      assert forall n :: 0 <= n < |front| ==> front[n] == form[n] && form[n].0 != last.0;
    }
  }

  /** The order of the form's fields does not matter. */
  lemma {:induction false} OverridesIgnoreOrder(
      claims: Claims, form: seq<(string, string)>, other: seq<(string, string)>, allowIss: bool, parse: ParseInt)
    requires DistinctFields(form) && DistinctFields(other) && multiset(form) == multiset(other)
    ensures Overridden(claims, FromPairs(form), allowIss, parse) == Overridden(claims, FromPairs(other), allowIss, parse)
  {
    var a, b := FromPairs(form), FromPairs(other);
    forall k | k in a ensures k in b && b[k] == a[k] {
      FromPairsHolds(form, k, a[k]);
      FromPairsHolds(other, k, a[k]);
      assert (k, a[k]) in multiset(form);
    }
    forall k | k in b ensures k in a {
      FromPairsHolds(form, k, b[k]);
      FromPairsHolds(other, k, b[k]);
      assert (k, b[k]) in multiset(other);
    }
    assert a == b;
  }

  // ── The same, spelled out claim by claim ──────────────────────────────────

  /** Every claim after overriding: fields without a name and the eight reserved ones do nothing, save
      `iss` when it is allowed; the three list claims are read as comma lists, the three times as
      numbers if they are some, and all else as text. Claims the form does not name stay. */
  lemma ClaimAfterOverrides(claims: Claims, form: map<string, string>, allowIss: bool, parse: ParseInt, k: string)
    ensures Lookup(Overridden(claims, form, allowIss, parse), k) ==
            if k !in form || k == "" then Lookup(claims, k)
            else if k == "iss" then if allowIss then Some(Str(form["iss"])) else Lookup(claims, "iss")
            else if k in {"grant_type", "client_id", "client_secret", "username", "password", "resource", "scope"} then
              Lookup(claims, k)
            else if k == "roles" || k == "groups" || k == "amr" then Some(Strs(ParseList(form[k])))
            else if k == "exp" || k == "iat" || k == "nbf" then
              match parse(form[k])
              case Some(n) => Some(Num(n))
              case None => Some(Str(form[k]))
            else Some(Str(form[k]))
  {
  }

  /** A header that lists names, with any blanks around them, removes exactly these claims: each is
      gone, and every other keeps its value. */
  lemma ListedNamesAreGone(
      claims: Claims, names: seq<string>, before: seq<string>, after: seq<string>, k: string)
    requires |names| == |before| == |after| && Blanks(before) && Blanks(after)
    requires forall n :: 0 <= n < |names| ==> Clean(names[n])
    ensures Lookup(Omitted(claims, Some(Join(Padded(names, before, after)))), k)
            == if k in names then None else Lookup(claims, k)
    ensures Omitted(claims, None) == claims
  {
    PaddedListIsItems(names, before, after);
    assert ParseList("") == [];
  }

  /** The roles header replaces the roles by the items it lists; without it they stay. */
  lemma ListedRolesReplace(roles: seq<string>, items: seq<string>, before: seq<string>, after: seq<string>)
    requires |items| == |before| == |after| && Blanks(before) && Blanks(after)
    requires forall n :: 0 <= n < |items| ==> Clean(items[n])
    ensures RolesOverride(roles, Some(Join(Padded(items, before, after)))) == items
    ensures RolesOverride(roles, None) == roles
  {
    PaddedListIsItems(items, before, after);
  }
}
