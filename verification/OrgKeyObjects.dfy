/** The hosted key resolver as the object it is (src/mock_idp/org_registry.py,
    _OrgKeyResolver), specified by the values in OrgKeys. */
module OrgKeyObjects {
  import opened Keys
  import opened KeyObjects
  import OrgKeys

  /** The table org_jwks, keyed by (org_id, issuer_slug). */
  class JwksTable {
    var rows: map<(string, string), OrgKeys.Row>

    constructor ()
      ensures rows == map[]
    {
      rows := map[];
    }
  }

  class OrgKeyResolver {
    const org: string
    const table: JwksTable
    const gen: KeyGenerator
    var cache: map<string, IssuerKeys>

    ghost predicate Valid()
      reads this
    {
      forall i, j :: i in cache && j in cache && i != j ==> cache[i] != cache[j]
    }

    ghost function View(): OrgKeys.Resolver
      reads this, table, gen, cache.Values
    {
      OrgKeys.Resolver(org, map i | i in cache :: cache[i].View(), table.rows, |gen.made|)
    }

    /** A process start: the table survives, the cache is empty. */
    constructor (org: string, table: JwksTable, gen: KeyGenerator)
      ensures Valid()
      ensures View() == OrgKeys.Resolver(org, map[], table.rows, |gen.made|) && cache == map[]
      ensures this.table == table && this.gen == gen
    {
      this.org := org;
      this.table := table;
      this.gen := gen;
      cache := map[];
    }

    method LoadOrCreate(issuer: string) returns (keys: IssuerKeys)
      requires Valid()
      modifies this, table, gen
      ensures Valid() && View() == OrgKeys.LoadOrCreate(old(View()), issuer)
      ensures issuer in cache && keys == cache[issuer]
      ensures forall i :: i in old(cache) ==> i in cache && cache[i] == old(cache[i])
      ensures cache.Keys == old(cache.Keys) + {issuer}
      ensures issuer !in old(cache) ==> fresh(keys)
      ensures fresh(cache.Values - old(cache.Values))
    {
      ghost var before := View();
      if issuer in cache {
        return cache[issuer];
      }
      keys := Fetch(issuer);
      assert View().cache == before.cache;
      Insert(issuer, keys);
    }

    method Fetch(issuer: string) returns (keys: IssuerKeys)
      modifies table, gen
      ensures fresh(keys)
      ensures if (org, issuer) in old(table.rows)
              then unchanged(table) && unchanged(gen)
                   && keys.View() == OrgKeys.Deserialize(issuer, table.rows[(org, issuer)])
              else keys.View() == NewKeySet(Scoped(org, issuer), |old(gen.made)|)
                   && |gen.made| == |old(gen.made)| + 6
                   && table.rows == old(table.rows)[(org, issuer) := OrgKeys.Serialize(keys.View())]
    {
      if (org, issuer) in table.rows {
        keys := new IssuerKeys.Restore(OrgKeys.Deserialize(issuer, table.rows[(org, issuer)]));
      } else {
        keys := new IssuerKeys(Scoped(org, issuer), gen);
        Persist(issuer, keys);
      }
    }

    method Insert(issuer: string, keys: IssuerKeys)
      requires Valid() && issuer !in cache && keys !in cache.Values
      modifies this
      ensures Valid() && cache == old(cache)[issuer := keys]
      ensures View() == old(View()).(cache := old(View()).cache[issuer := keys.View()])
    {
      cache := cache[issuer := keys];
      assert keys == cache[issuer];
    }

    method Persist(issuer: string, keys: IssuerKeys)
      modifies table
      ensures table.rows == old(table.rows)[(org, issuer) := OrgKeys.Serialize(keys.View())]
      ensures View() == old(View()).(table := table.rows)
    {
      table.rows := table.rows[(org, issuer) := OrgKeys.Serialize(keys.View())];
    }

    /** The cached object is rotated in place, then written back. */
    method Rotate(issuer: string) returns (kid: string)
      requires Valid()
      modifies this, table, gen, cache.Values
      ensures Valid() && View() == OrgKeys.RotateIssuer(old(View()), issuer)
      ensures kid == View().cache[issuer].signing.Kid()
      ensures fresh(cache.Values - old(cache.Values))
    {
      var keys := LoadOrCreate(issuer);
      kid := RotateCached(issuer);
      Persist(issuer, keys);
    }

    method RotateCached(issuer: string) returns (kid: string)
      requires Valid() && issuer in cache
      modifies gen, cache.Values
      ensures var before := old(View());
              View() == before.(cache := before.cache[issuer := before.cache[issuer].Rotated(before.made)],
                                made := before.made + 1)
      ensures kid == View().cache[issuer].signing.Kid()
    {
      ghost var before := View();
      var key := cache[issuer].Rotate(gen);
      assert forall i :: i in cache && i != issuer ==> cache[i].View() == before.cache[i];
      kid := key.Kid();
    }
  }

  /** One load, rotation or process restart: a restart leaves the table and starts a new resolver. */
  method Perform(resolver: OrgKeyResolver, op: OrgKeys.Op) returns (next: OrgKeyResolver)
    requires resolver.Valid()
    modifies resolver, resolver.table, resolver.gen, resolver.cache.Values
    ensures next.Valid() && next.View() == OrgKeys.Apply(old(resolver.View()), op)
    ensures next == resolver || fresh(next)
    ensures next.table == resolver.table && next.gen == resolver.gen
    ensures fresh(next.cache.Values - old(resolver.cache.Values))
  {
    next := resolver;
    match op
    case Load(issuer) => var _ := resolver.LoadOrCreate(issuer);
    case Rotate(issuer) => var _ := resolver.Rotate(issuer);
    case Restart => next := new OrgKeyResolver(resolver.org, resolver.table, resolver.gen);
  }

  /** A whole history of them on the objects is a run of OrgKeys. */
  method Replay(first: OrgKeyResolver, ops: seq<OrgKeys.Op>) returns (last: OrgKeyResolver)
    requires first.Valid()
    modifies first, first.table, first.gen, first.cache.Values
    ensures last.Valid() && last.table == first.table
    ensures last.View() == OrgKeys.Run(old(first.View()), ops)
  {
    ghost var start := first.View();
    last := first;
    var n := 0;
    while n < |ops|
      invariant 0 <= n <= |ops|
      invariant last == first || fresh(last)
      invariant last.table == first.table && last.gen == first.gen
      invariant fresh(last.cache.Values - old(first.cache.Values))
      invariant last.Valid() && OrgKeys.Run(last.View(), ops[n..]) == OrgKeys.Run(start, ops)
    {
      assert ops[n..][0] == ops[n] && ops[n..][1..] == ops[n + 1..];
      last := Perform(last, ops[n]);
      n := n + 1;
    }
  }
}
