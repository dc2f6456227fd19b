/** What a store holds after loading, spelled out on the configuration and on the Postgres rows
    (src/mock_idp/store/yaml_store.py, src/mock_idp/store/pg_store.py): which ids are known, and which
    entry answers each. */
module AsConfigured {
  import opened Wrappers
  import opened Models
  import opened IdentityStore

  // ── Reading order ─────────────────────────────────────────────────────────

  /** The n-th entry of the t-th group of a list of groups, in reading order. */
  predicate Within<T>(groups: seq<seq<T>>, t: int, n: int) {
    0 <= t < |groups| && 0 <= n < |groups[t]|
  }

  predicate Before(t: int, n: int, u: int, m: int) {
    t < u || (t == u && n < m)
  }

  function Flat<T>(groups: seq<seq<T>>): seq<T> {
    if groups == [] then [] else Flat(groups[..|groups| - 1]) + groups[|groups| - 1]
  }

  lemma {:induction false} FlatAt<T>(groups: seq<seq<T>>, t: int, n: int)
    requires Within(groups, t, n)
    ensures |Flat(groups[..t])| + n < |Flat(groups)|
    ensures Flat(groups)[|Flat(groups[..t])| + n] == groups[t][n]
  {
    var front := groups[..|groups| - 1];
    if t < |front| {
      FlatAt(front, t, n);
      assert front[..t] == groups[..t];
    } else {
      assert groups[..t] == front;
    }
  }

  lemma {:induction false} FlatFrom<T>(groups: seq<seq<T>>, i: int) returns (t: int, n: int)
    requires 0 <= i < |Flat(groups)|
    ensures Within(groups, t, n) && i == |Flat(groups[..t])| + n
  {
    var front := groups[..|groups| - 1];
    if i < |Flat(front)| {
      t, n := FlatFrom(front, i);
      assert front[..t] == groups[..t];
    } else {
      t, n := |front|, i - |Flat(front)|;
    }
  }

  lemma FlatInOrder<T>(groups: seq<seq<T>>, t: int, n: int, u: int, m: int)
    requires Within(groups, t, n) && Within(groups, u, m) && Before(t, n, u, m)
    ensures |Flat(groups[..t])| + n < |Flat(groups[..u])| + m
  {
    if t < u {
      assert groups[..u][..t] == groups[..t];
      FlatAt(groups[..u], t, n);
    }
  }

  // ── Service principals ────────────────────────────────────────────────────

  function PrincipalGroups(tenants: Tenants): seq<seq<Principal>> {
    seq(|tenants|, t requires 0 <= t < |tenants| =>
      TenantPrincipals(tenants[t].0, tenants[t].1, |tenants[t].1.principals|))
  }

  lemma {:induction false} AllPrincipalsFlat(tenants: Tenants)
    ensures AllPrincipals(tenants) == Flat(PrincipalGroups(tenants))
  {
    if tenants != [] {
      AllPrincipalsFlat(tenants[..|tenants| - 1]);
      assert PrincipalGroups(tenants)[..|tenants| - 1] == PrincipalGroups(tenants[..|tenants| - 1]);
    }
  }

  /** Is there an n-th service principal in the t-th tenant? */
  predicate At(tenants: Tenants, t: int, n: int) {
    0 <= t < |tenants| && 0 <= n < |tenants[t].1.principals|
  }

  /** Can it be asked for by this id: its config key, or its client id if that is not empty? */
  predicate HasId(tenants: Tenants, t: int, n: int, id: string)
    requires At(tenants, t, n)
  {
    var (key, sp) := tenants[t].1.principals[n];
    id == key || (id != "" && sp.clientId == Some(id))
  }

  ghost predicate LastWithId(tenants: Tenants, t: int, n: int, id: string) {
    && At(tenants, t, n) && HasId(tenants, t, n, id)
    && forall u, m :: At(tenants, u, m) && Before(t, n, u, m) ==> !HasId(tenants, u, m, id)
  }

  /** The record as configured, stamped with its key, its id and what its tenant says. */
  predicate LoadedAs(record: Principal, tenants: Tenants, t: int, n: int)
    requires At(tenants, t, n)
  {
    var ((tid, tenant), (key, sp)) := (tenants[t], tenants[t].1.principals[n]);
    && record.name == key
    && record.canonicalId == (match sp.clientId case Some(id) => if id == "" then key else id case None => key)
    && record.core.tid == tid && record.core.tenantRealmRoles == tenant.realmRoles
    && record.core.provider == tenant.provider
    && record == sp.(name := record.name, canonicalId := record.canonicalId, core := record.core)
    && record.core == sp.core.(tid := tid, tenantRealmRoles := tenant.realmRoles, provider := tenant.provider)
  }

  lemma GroupMeans(tenants: Tenants, t: int, n: int, id: string)
    requires At(tenants, t, n)
    ensures Within(PrincipalGroups(tenants), t, n)
    ensures Answers(PrincipalGroups(tenants)[t][n], id) <==> HasId(tenants, t, n, id)
    ensures LoadedAs(PrincipalGroups(tenants)[t][n], tenants, t, n)
  {
  }

  lemma PrincipalIsKnown(tenants: Tenants, t: int, n: int, id: string)
    requires At(tenants, t, n) && HasId(tenants, t, n, id)
    ensures id in Index(AllPrincipals(tenants))
  {
    var groups := PrincipalGroups(tenants);
    AllPrincipalsFlat(tenants);
    GroupMeans(tenants, t, n, id);
    FlatAt(groups, t, n);
    IndexIsLastMatch(AllPrincipals(tenants), id);
    assert Answers(AllPrincipals(tenants)[|Flat(groups[..t])| + n], id);
  }

  lemma LastAmongGroups(tenants: Tenants, id: string, i: int) returns (t: int, n: int)
    requires LastAnswer(Flat(PrincipalGroups(tenants)), id, i)
    ensures LastWithId(tenants, t, n, id) && LoadedAs(Flat(PrincipalGroups(tenants))[i], tenants, t, n)
  {
    t, n := FlatFrom(PrincipalGroups(tenants), i);
    FlatAt(PrincipalGroups(tenants), t, n);
    GroupMeans(tenants, t, n, id);
    forall u, m | At(tenants, u, m) && Before(t, n, u, m) ensures !HasId(tenants, u, m, id) {
      LaterLacksId(tenants, id, i, t, n, u, m);
    }
  }

  lemma LastPrincipalAnswers(tenants: Tenants, id: string) returns (t: int, n: int)
    requires id in Index(AllPrincipals(tenants))
    ensures LastWithId(tenants, t, n, id) && LoadedAs(Index(AllPrincipals(tenants))[id], tenants, t, n)
  {
    var entries := AllPrincipals(tenants);
    AllPrincipalsFlat(tenants);
    IndexIsLastMatch(entries, id);
    var i :| LastAnswer(entries, id, i) && Index(entries)[id] == entries[i];
    t, n := LastAmongGroups(tenants, id, i);
  }

  lemma LaterLacksId(tenants: Tenants, id: string, i: int, t: int, n: int, u: int, m: int)
    requires At(tenants, t, n) && At(tenants, u, m) && Before(t, n, u, m)
    requires i == |Flat(PrincipalGroups(tenants)[..t])| + n && LastAnswer(Flat(PrincipalGroups(tenants)), id, i)
    ensures !HasId(tenants, u, m, id)
  {
    GroupMeans(tenants, u, m, id);
    FlatInOrder(PrincipalGroups(tenants), t, n, u, m);
    FlatAt(PrincipalGroups(tenants), u, m);
  }

  /** A loaded configuration knows its service principals by exactly their config keys and non-empty
      client ids, and answers each id with the last one in document order that has it, loaded as
      configured. */
  lemma PrincipalsAsConfigured(cfg: AppConfig, id: string)
    ensures id in Loaded(cfg).principals <==> exists t, n :: At(cfg.tenants, t, n) && HasId(cfg.tenants, t, n, id)
    ensures id in Loaded(cfg).principals ==>
              exists t, n :: LastWithId(cfg.tenants, t, n, id) && LoadedAs(Loaded(cfg).principals[id], cfg.tenants, t, n)
  {
    if t, n :| At(cfg.tenants, t, n) && HasId(cfg.tenants, t, n, id) {
      PrincipalIsKnown(cfg.tenants, t, n, id);
    }
    if id in Loaded(cfg).principals {
      var t, n := LastPrincipalAnswers(cfg.tenants, id);
    }
  }

  // ── Users and client apps ─────────────────────────────────────────────────

  predicate LastKey<V>(pairs: seq<(string, V)>, k: string, n: int) {
    && 0 <= n < |pairs| && pairs[n].0 == k
    && forall m :: n < m < |pairs| ==> pairs[m].0 != k
  }

  lemma {:induction false} FromPairsIsLast<V>(pairs: seq<(string, V)>, k: string)
    ensures k in FromPairs(pairs) <==> exists n :: LastKey(pairs, k, n)
    ensures forall n :: LastKey(pairs, k, n) ==> k in FromPairs(pairs) && FromPairs(pairs)[k] == pairs[n].1
  {
    if pairs != [] {
      var front, last := pairs[..|pairs| - 1], |pairs| - 1;
      FromPairsIsLast(front, k);
      if pairs[last].0 == k {
        assert LastKey(pairs, k, last);
      } else {
        assert forall n :: LastKey(pairs, k, n) <==> LastKey(front, k, n);
      }
    }
  }

  ghost predicate LastIn<V>(groups: seq<seq<(string, V)>>, t: int, n: int, k: string) {
    && Within(groups, t, n) && groups[t][n].0 == k
    && forall u, m :: Within(groups, u, m) && Before(t, n, u, m) ==> groups[u][m].0 != k
  }

  lemma LastInIsLastKey<V>(groups: seq<seq<(string, V)>>, k: string, i: int) returns (t: int, n: int)
    requires LastKey(Flat(groups), k, i)
    ensures LastIn(groups, t, n, k) && groups[t][n] == Flat(groups)[i]
  {
    t, n := FlatFrom(groups, i);
    FlatAt(groups, t, n);
    forall u, m | Within(groups, u, m) && Before(t, n, u, m) ensures groups[u][m].0 != k {
      FlatInOrder(groups, t, n, u, m);
      FlatAt(groups, u, m);
    }
  }

  /** Filled group by group, a dictionary answers a key with the last pair of it in reading order. */
  lemma FlatAnswersLast<V>(groups: seq<seq<(string, V)>>, k: string)
    ensures k in FromPairs(Flat(groups)) <==> exists t, n :: Within(groups, t, n) && groups[t][n].0 == k
    ensures k in FromPairs(Flat(groups)) ==>
              exists t, n :: LastIn(groups, t, n, k) && FromPairs(Flat(groups))[k] == groups[t][n].1
  {
    FromPairsIsLast(Flat(groups), k);
    if i :| LastKey(Flat(groups), k, i) {
      var t, n := LastInIsLastKey(groups, k, i);
    }
    if t, n :| Within(groups, t, n) && groups[t][n].0 == k {
      FlatAt(groups, t, n);
      KeyHasLast(Flat(groups), k, |Flat(groups[..t])| + n);
    }
  }

  lemma {:induction false} KeyHasLast<V>(pairs: seq<(string, V)>, k: string, n: int)
    requires 0 <= n < |pairs| && pairs[n].0 == k
    ensures exists i :: LastKey(pairs, k, i)
    decreases |pairs| - n
  {
    if m :| n < m < |pairs| && pairs[m].0 == k {
      KeyHasLast(pairs, k, m);
    } else {
      assert LastKey(pairs, k, n);
    }
  }

  predicate UserAt(tenants: Tenants, t: int, n: int) {
    0 <= t < |tenants| && 0 <= n < |tenants[t].1.users|
  }

  ghost predicate LastUser(tenants: Tenants, t: int, n: int, name: string) {
    && UserAt(tenants, t, n) && tenants[t].1.users[n].0 == name
    && forall u, m :: UserAt(tenants, u, m) && Before(t, n, u, m) ==> tenants[u].1.users[m].0 != name
  }

  function UserGroups(tenants: Tenants): seq<seq<(string, User)>> {
    seq(|tenants|, t requires 0 <= t < |tenants| => TenantUsers(tenants[t].0, tenants[t].1, |tenants[t].1.users|))
  }

  lemma {:induction false} AllUsersFlat(tenants: Tenants)
    ensures AllUsers(tenants) == Flat(UserGroups(tenants))
  {
    if tenants != [] {
      AllUsersFlat(tenants[..|tenants| - 1]);
      assert UserGroups(tenants)[..|tenants| - 1] == UserGroups(tenants[..|tenants| - 1]);
    }
  }

  /** Users are known by exactly their configured names, each by its last entry in document order,
      stamped with what its tenant says. */
  lemma UsersAsConfigured(cfg: AppConfig, name: string)
    ensures name in Loaded(cfg).users <==>
            exists t, n :: UserAt(cfg.tenants, t, n) && cfg.tenants[t].1.users[n].0 == name
    ensures name in Loaded(cfg).users ==>
              exists t, n :: LastUser(cfg.tenants, t, n, name) &&
                var ((tid, tenant), user) := (cfg.tenants[t], cfg.tenants[t].1.users[n].1);
                Loaded(cfg).users[name] == user.(core := user.core.(
                  tid := tid, tenantRealmRoles := tenant.realmRoles, provider := tenant.provider))
  {
    var groups: seq<seq<(string, User)>> := UserGroups(cfg.tenants);
    AllUsersFlat(cfg.tenants);
    FlatAnswersLast(groups, name);
    assert forall t, n :: UserAt(cfg.tenants, t, n) <==> Within(groups, t, n);
    if name in Loaded(cfg).users {
      var t, n :| LastIn(groups, t, n, name) && FromPairs(Flat(groups))[name] == groups[t][n].1;
      assert LastUser(cfg.tenants, t, n, name);
    }
    if t, n :| UserAt(cfg.tenants, t, n) && cfg.tenants[t].1.users[n].0 == name {
      assert Within(groups, t, n) && groups[t][n].0 == name;
    }
  }

  predicate ClientAt(tenants: Tenants, t: int, n: int) {
    0 <= t < |tenants| && 0 <= n < |tenants[t].1.clients|
  }

  ghost predicate LastClient(tenants: Tenants, t: int, n: int, aud: string) {
    && ClientAt(tenants, t, n) && tenants[t].1.clients[n].0 == aud
    && forall u, m :: ClientAt(tenants, u, m) && Before(t, n, u, m) ==> tenants[u].1.clients[m].0 != aud
  }

  function ClientGroups(tenants: Tenants): seq<seq<(string, App)>> {
    seq(|tenants|, t requires 0 <= t < |tenants| => tenants[t].1.clients)
  }

  lemma {:induction false} AllClientsFlat(tenants: Tenants)
    ensures AllClients(tenants) == Flat(ClientGroups(tenants))
  {
    if tenants != [] {
      AllClientsFlat(tenants[..|tenants| - 1]);
      assert ClientGroups(tenants)[..|tenants| - 1] == ClientGroups(tenants[..|tenants| - 1]);
    }
  }

  /** Client apps are known by exactly their audiences, each by its last entry in document order. */
  lemma ClientsAsConfigured(cfg: AppConfig, aud: string)
    ensures aud in Loaded(cfg).clients <==>
            exists t, n :: ClientAt(cfg.tenants, t, n) && cfg.tenants[t].1.clients[n].0 == aud
    ensures aud in Loaded(cfg).clients ==>
              exists t, n :: LastClient(cfg.tenants, t, n, aud)
                             && Loaded(cfg).clients[aud] == cfg.tenants[t].1.clients[n].1
  {
    var groups: seq<seq<(string, App)>> := ClientGroups(cfg.tenants);
    AllClientsFlat(cfg.tenants);
    FlatAnswersLast(groups, aud);
    assert forall t, n :: ClientAt(cfg.tenants, t, n) <==> Within(groups, t, n);
    if aud in Loaded(cfg).clients {
      var t, n :| LastIn(groups, t, n, aud) && FromPairs(Flat(groups))[aud] == groups[t][n].1;
      assert LastClient(cfg.tenants, t, n, aud);
    }
    if t, n :| ClientAt(cfg.tenants, t, n) && cfg.tenants[t].1.clients[n].0 == aud {
      assert Within(groups, t, n) && groups[t][n].0 == aud;
    }
  }

  // ── The Postgres rows ─────────────────────────────────────────────────────

  /** Can the n-th service principal row be asked for by this id? */
  predicate RowHasId(rows: PgRows, n: int, id: string)
    requires AllBuilt(rows.principals) && 0 <= n < |rows.principals|
  {
    assert rows.principals[n] in rows.principals;
    var (name, sp) := rows.principals[n].value;
    id == name || (id != "" && sp.clientId == Some(id))
  }

  ghost predicate LastRowWithId(rows: PgRows, n: int, id: string)
    requires AllBuilt(rows.principals)
  {
    && 0 <= n < |rows.principals| && RowHasId(rows, n, id)
    && forall m :: n < m < |rows.principals| ==> !RowHasId(rows, m, id)
  }

  lemma {:induction false} RowPrincipalsLength(pairs: seq<(string, Principal)>)
    ensures |RowPrincipals(pairs)| == |pairs|
  {
    if pairs != [] {
      RowPrincipalsLength(pairs[..|pairs| - 1]);
    }
  }

  lemma {:induction false} RowPrincipalAt(pairs: seq<(string, Principal)>, n: int)
    requires 0 <= n < |pairs|
    ensures |RowPrincipals(pairs)| == |pairs|
    ensures var ((name, sp), p) := (pairs[n], RowPrincipals(pairs)[n]);
            && p.name == name
            && p.canonicalId == (match sp.clientId case Some(id) => if id == "" then name else id case None => name)
            && p == sp.(name := p.name, canonicalId := p.canonicalId)
  {
    RowPrincipalsLength(pairs);
    RowPrincipalsLength(pairs[..|pairs| - 1]);
    if n < |pairs| - 1 {
      RowPrincipalAt(pairs[..|pairs| - 1], n);
    }
  }

  lemma RowAnswers(rows: PgRows, n: int, id: string)
    requires Complete(rows) && 0 <= n < |rows.principals|
    ensures |RowPrincipals(Records(rows.principals))| == |rows.principals|
    ensures Answers(RowPrincipals(Records(rows.principals))[n], id) <==> RowHasId(rows, n, id)
  {
    RowPrincipalAt(Records(rows.principals), n);
  }

  /** After a completed Postgres reload too, exactly the names and non-empty client ids of the rows are
      known, and each id gives the last row in fetch order that has it. */
  lemma PrincipalsAsInRows(view: Snapshot, rows: PgRows, id: string)
    requires Complete(rows)
    ensures id in AfterPgReload(view, rows).principals <==>
            exists n :: 0 <= n < |rows.principals| && RowHasId(rows, n, id)
    ensures id in AfterPgReload(view, rows).principals ==>
              exists n :: LastRowWithId(rows, n, id) &&
                var ((name, sp), p) := (rows.principals[n].value, AfterPgReload(view, rows).principals[id]);
                && p.name == name
                && p.canonicalId == (match sp.clientId case Some(c) => if c == "" then name else c case None => name)
                && p == sp.(name := p.name, canonicalId := p.canonicalId)
  {
    var entries := RowPrincipals(Records(rows.principals));
    IndexIsLastMatch(entries, id);
    RowPrincipalsLength(Records(rows.principals));
    forall n | 0 <= n < |rows.principals| ensures Answers(entries[n], id) <==> RowHasId(rows, n, id) {
      RowAnswers(rows, n, id);
    }
    if id in Index(entries) {
      var n :| LastAnswer(entries, id, n) && Index(entries)[id] == entries[n];
      RowPrincipalAt(Records(rows.principals), n);
      assert LastRowWithId(rows, n, id);
    }
  }

  lemma RecordAt<T>(rows: seq<Option<T>>, n: int)
    requires AllBuilt(rows) && 0 <= n < |rows|
    ensures |Records(rows)| == |rows| && rows[n] == Some(Records(rows)[n])
  {
    assert rows[n] in rows;
  }

  /** The n-th row is the last of this name. */
  predicate LastRow<V>(rows: seq<Option<(string, V)>>, k: string, n: int)
    requires AllBuilt(rows)
  {
    LastKey(Records(rows), k, n)
  }

  lemma DictionaryAsInRows<V>(rows: seq<Option<(string, V)>>, k: string)
    requires AllBuilt(rows)
    ensures k in FromPairs(Records(rows)) <==> exists n :: LastRow(rows, k, n)
    ensures forall n :: LastRow(rows, k, n) ==>
              k in FromPairs(Records(rows)) && rows[n] == Some((k, FromPairs(Records(rows))[k]))
  {
    FromPairsIsLast(Records(rows), k);
    assert forall n :: LastRow(rows, k, n) <==> LastKey(Records(rows), k, n);
    forall n | LastRow(rows, k, n) ensures rows[n] == Some(Records(rows)[n]) {
      RecordAt(rows, n);
    }
  }

  /** And users and client apps are the last rows of their name and audience, */
  lemma UsersAndClientsAsInRows(view: Snapshot, rows: PgRows, k: string)
    requires Complete(rows)
    ensures var users := AfterPgReload(view, rows).users;
            && (k in users <==> exists n :: LastRow(rows.users, k, n))
            && (forall n :: LastRow(rows.users, k, n) ==> k in users && rows.users[n] == Some((k, users[k])))
    ensures var clients := AfterPgReload(view, rows).clients;
            && (k in clients <==> exists n :: LastRow(rows.clients, k, n))
            && (forall n :: LastRow(rows.clients, k, n) ==> k in clients && rows.clients[n] == Some((k, clients[k])))
  {
    DictionaryAsInRows(rows.users, k);
    DictionaryAsInRows(rows.clients, k);
  }

  /** while the scalars and modes are those of the app_config row, or as before without one. */
  lemma ScalarsAsInRow(view: Snapshot, rows: PgRows)
    requires Complete(rows)
    ensures var v := AfterPgReload(view, rows);
            && v.webhooks == view.webhooks
            && (match rows.config
                case None => v.mode == view.mode && v.adminToken == view.adminToken
                             && v.corsOrigins == view.corsOrigins && v.issuerModes == view.issuerModes
                case Some(row) => v.mode == row.mode && v.adminToken == row.adminToken
                                  && v.corsOrigins == row.corsOrigins && v.issuerModes == PutIn(row.issuerModes))
  {
  }
}
