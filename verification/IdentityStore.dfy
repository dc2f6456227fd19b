/** The identity stores: configuration becomes flat dictionaries and an index of service
    principals by key and client id, refilled in place
    (src/mock_idp/store/yaml_store.py, src/mock_idp/store/pg_store.py, src/mock_idp/config.py). */
module IdentityStore {
  import opened Wrappers
  import opened Models

  // ── What a configuration means ────────────────────────────────────────────

  function LoadUser(tid: string, tenant: Tenant, user: User): User {
    user.(core := user.core.(tid := tid, tenantRealmRoles := tenant.realmRoles, provider := tenant.provider))
  }

  /** `client_id or key` */
  function EffectiveId(sp: Principal, key: string): string {
    if sp.clientId.Some? && sp.clientId.value != "" then sp.clientId.value else key
  }

  function LoadPrincipal(tid: string, tenant: Tenant, key: string, sp: Principal): Principal {
    sp.(core := sp.core.(tid := tid, tenantRealmRoles := tenant.realmRoles, provider := tenant.provider),
        name := key, canonicalId := EffectiveId(sp, key))
  }

  type Tenants = seq<(string, Tenant)>

  /** The users of a tenant as loaded, the first `n` of them. */
  function TenantUsers(tid: string, tenant: Tenant, n: nat): seq<(string, User)>
    requires n <= |tenant.users|
  {
    seq(n, i requires 0 <= i < n => (tenant.users[i].0, LoadUser(tid, tenant, tenant.users[i].1)))
  }

  function TenantPrincipals(tid: string, tenant: Tenant, n: nat): seq<Principal>
    requires n <= |tenant.principals|
  {
    seq(n, i requires 0 <= i < n => LoadPrincipal(tid, tenant, tenant.principals[i].0, tenant.principals[i].1))
  }

  function AllUsers(tenants: Tenants): seq<(string, User)> {
    if tenants == [] then []
    else
      var (tid, tenant) := tenants[|tenants| - 1];
      AllUsers(tenants[..|tenants| - 1]) + TenantUsers(tid, tenant, |tenant.users|)
  }

  /** Every configured service principal as loaded, in document order. */
  function AllPrincipals(tenants: Tenants): seq<Principal> {
    if tenants == [] then []
    else
      var (tid, tenant) := tenants[|tenants| - 1];
      AllPrincipals(tenants[..|tenants| - 1]) + TenantPrincipals(tid, tenant, |tenant.principals|)
  }

  function AllClients(tenants: Tenants): seq<(string, App)> {
    if tenants == [] then [] else AllClients(tenants[..|tenants| - 1]) + tenants[|tenants| - 1].1.clients
  }

  /** The index the loops build: each principal under its key, then under its effective id. */
  function Index(entries: seq<Principal>): map<string, Principal> {
    if entries == [] then map[]
    else
      var e := entries[|entries| - 1];
      var m := Index(entries[..|entries| - 1])[e.name := e];
      if e.canonicalId != e.name then m[e.canonicalId := e] else m
  }

  function RawIndex(entries: seq<Principal>): map<string, Principal> {
    if entries == [] then map[]
    else RawIndex(entries[..|entries| - 1])[entries[|entries| - 1].name := entries[|entries| - 1]]
  }

  predicate Answers(e: Principal, k: string) {
    e.name == k || e.canonicalId == k
  }

  /** Entry `n` is the last in document order that has the id as one of its two. */
  predicate LastAnswer(entries: seq<Principal>, k: string, n: int) {
    && 0 <= n < |entries| && Answers(entries[n], k)
    && forall m :: n < m < |entries| ==> !Answers(entries[m], k)
  }

  predicate Answered(entries: seq<Principal>, k: string) {
    exists n :: 0 <= n < |entries| && Answers(entries[n], k)
  }

  /** A lookup agrees with a linear scan: the index knows exactly the keys and effective client ids,
      and answers with the last entry that has the id. */
  lemma {:induction false} IndexIsLastMatch(entries: seq<Principal>, k: string)
    ensures k in Index(entries) <==> Answered(entries, k)
    ensures k in Index(entries) ==> exists n :: LastAnswer(entries, k, n) && Index(entries)[k] == entries[n]
  {
    if entries != [] {
      var front, last := entries[..|entries| - 1], |entries| - 1;
      IndexIsLastMatch(front, k);
      AnswersInFrontOrLast(entries, k);
      if Answers(entries[last], k) {
        assert LastAnswer(entries, k, last) && Index(entries)[k] == entries[last];
      } else if k in Index(front) {
        var m :| LastAnswer(front, k, m) && Index(front)[k] == front[m];
        LastAnswerInFront(entries, k, m);
      }
    }
  }

  lemma LastAnswerInFront(entries: seq<Principal>, k: string, m: int)
    requires entries != [] && LastAnswer(entries[..|entries| - 1], k, m) && !Answers(entries[|entries| - 1], k)
    ensures LastAnswer(entries, k, m)
  {
    assert forall n :: 0 <= n < |entries| - 1 ==> entries[n] == entries[..|entries| - 1][n];
  }

  lemma AnswersInFrontOrLast(entries: seq<Principal>, k: string)
    requires entries != []
    ensures Answered(entries, k) <==>
            Answers(entries[|entries| - 1], k) || Answered(entries[..|entries| - 1], k)
  {
    var front := entries[..|entries| - 1];
    assert forall n :: 0 <= n < |front| ==> entries[n] == front[n];
    if n :| 0 <= n < |front| && Answers(front[n], k) {
      assert Answers(entries[n], k);
    }
  }

  lemma {:induction false} RawIndexIsByKey(entries: seq<Principal>, k: string)
    ensures k in RawIndex(entries) <==> exists n :: 0 <= n < |entries| && entries[n].name == k
    ensures k in RawIndex(entries) ==> k in Index(entries)
  {
    if entries != [] {
      var front := entries[..|entries| - 1];
      RawIndexIsByKey(front, k);
      if entries[|entries| - 1].name != k {
        if k in RawIndex(front) {
          var n :| 0 <= n < |front| && front[n].name == k;
          assert entries[n].name == k;
        }
        if n :| 0 <= n < |entries| && entries[n].name == k {
          assert front[n].name == k;
        }
      }
    }
  }

  /** Everything a store exposes. */
  datatype Snapshot = Snapshot(
    mode: string, adminToken: string, corsOrigins: seq<string>, webhooks: seq<string>,
    issuerModes: map<string, string>, users: map<string, User>,
    principals: map<string, Principal>, principalsRaw: map<string, Principal>, clients: map<string, App>)

  function Loaded(cfg: AppConfig): Snapshot {
    Snapshot(cfg.authMode, cfg.adminToken, cfg.corsAllowOrigins, cfg.webhooks, cfg.issuerModes,
             FromPairs(AllUsers(cfg.tenants)), Index(AllPrincipals(cfg.tenants)),
             RawIndex(AllPrincipals(cfg.tenants)), FromPairs(AllClients(cfg.tenants)))
  }

  // ── The stores as objects ─────────────────────────────────────────────────

  /** What reading and validating the configuration file gives. `Rejected` is a validation or
      secret error, which is logged; `Unreadable` is any other error, which propagates. */
  datatype Input = Valid(cfg: AppConfig) | Rejected | Unreadable

  class Store {
    var mode: string
    var adminToken: string
    var corsOrigins: seq<string>
    var webhooks: seq<string>
    const issuerModes: Dict<string>
    const users: Dict<User>
    const principals: Dict<Principal>
    const principalsRaw: Dict<Principal>
    const clients: Dict<App>

    ghost function Objects(): set<object> {
      {issuerModes, users, principals, principalsRaw, clients}
    }

    ghost predicate Separate() {
      principals != principalsRaw
    }

    ghost function View(): Snapshot
      reads this, Objects()
    {
      Snapshot(mode, adminToken, corsOrigins, webhooks, issuerModes.m, users.m, principals.m, principalsRaw.m, clients.m)
    }

    constructor ()
      ensures Separate() && fresh(Objects())
      ensures View() == Snapshot("lax", "change-me", ["*"], [], map[], map[], map[], map[], map[])
    {
      mode, adminToken, corsOrigins, webhooks := "lax", "change-me", ["*"], [];
      issuerModes := new Dict(map[]);
      users := new Dict(map[]);
      principals := new Dict(map[]);
      principalsRaw := new Dict(map[]);
      clients := new Dict(map[]);
    }

    /** Clears and refills the four identity dictionaries. */
    method RefillIdentities(
        newUsers: map<string, User>, newSps: map<string, Principal>, newRaw: map<string, Principal>,
        newApps: map<string, App>)
      requires Separate()
      modifies users, principals, principalsRaw, clients
      ensures View() == old(View()).(users := newUsers, principals := newSps, principalsRaw := newRaw, clients := newApps)
    {
      users.Refill(newUsers);
      principals.Refill(newSps);
      principalsRaw.Refill(newRaw);
      clients.Refill(newApps);
    }

    /** The YAML store's nested loops over tenants, users, principals and clients. */
    method Apply(cfg: AppConfig)
      requires Separate()
      modifies this, Objects()
      ensures View() == Loaded(cfg)
    {
      mode := cfg.authMode;
      adminToken := cfg.adminToken;
      corsOrigins := cfg.corsAllowOrigins;
      webhooks := cfg.webhooks;
      issuerModes.Refill(cfg.issuerModes);

      var newUsers: map<string, User> := map[];
      var newSps: map<string, Principal> := map[];
      var newRaw: map<string, Principal> := map[];
      var newApps: map<string, App> := map[];
      ghost var scalarsSet := View();
      var t := 0;
      while t < |cfg.tenants|
        invariant 0 <= t <= |cfg.tenants|
        invariant View() == scalarsSet
        invariant newUsers == FromPairs(AllUsers(cfg.tenants[..t]))
        invariant newSps == Index(AllPrincipals(cfg.tenants[..t]))
        invariant newRaw == RawIndex(AllPrincipals(cfg.tenants[..t]))
        invariant newApps == FromPairs(AllClients(cfg.tenants[..t]))
      {
        var (tid, tenant) := cfg.tenants[t];
        assert cfg.tenants[..t + 1][..t] == cfg.tenants[..t];
        newUsers := AddUsers(tid, tenant, AllUsers(cfg.tenants[..t]), newUsers);
        newSps, newRaw := AddPrincipals(tid, tenant, AllPrincipals(cfg.tenants[..t]), newSps, newRaw);
        newApps := AddClients(tenant, AllClients(cfg.tenants[..t]), newApps);
        t := t + 1;
      }
      assert cfg.tenants[..t] == cfg.tenants;
      RefillIdentities(newUsers, newSps, newRaw, newApps);
    }

    static method AddUsers(tid: string, tenant: Tenant, ghost before: seq<(string, User)>, m: map<string, User>)
      returns (r: map<string, User>)
      requires m == FromPairs(before)
      ensures r == FromPairs(before + TenantUsers(tid, tenant, |tenant.users|))
    {
      r := m;
      var n := 0;
      assert before + TenantUsers(tid, tenant, 0) == before;
      while n < |tenant.users|
        invariant 0 <= n <= |tenant.users|
        invariant r == FromPairs(before + TenantUsers(tid, tenant, n))
      {
        var (username, user) := tenant.users[n];
        ghost var done := before + TenantUsers(tid, tenant, n);
        FromPairsSnoc(done, username, LoadUser(tid, tenant, user));
        r := r[username := LoadUser(tid, tenant, user)];
        n := n + 1;
        assert before + TenantUsers(tid, tenant, n) == done + [(username, LoadUser(tid, tenant, user))];
      }
    }

    static method AddPrincipals(
        tid: string, tenant: Tenant, ghost before: seq<Principal>, m: map<string, Principal>, raw: map<string, Principal>)
      returns (r: map<string, Principal>, rawR: map<string, Principal>)
      requires m == Index(before) && raw == RawIndex(before)
      ensures r == Index(before + TenantPrincipals(tid, tenant, |tenant.principals|))
      ensures rawR == RawIndex(before + TenantPrincipals(tid, tenant, |tenant.principals|))
    {
      r, rawR := m, raw;
      var n := 0;
      assert before + TenantPrincipals(tid, tenant, 0) == before;
      while n < |tenant.principals|
        invariant 0 <= n <= |tenant.principals|
        invariant r == Index(before + TenantPrincipals(tid, tenant, n))
        invariant rawR == RawIndex(before + TenantPrincipals(tid, tenant, n))
      {
        var (key, configured) := tenant.principals[n];
        var sp := LoadPrincipal(tid, tenant, key, configured);
        ghost var done := before + TenantPrincipals(tid, tenant, n);
        IndexSnoc(done, sp);
        var canonical := sp.canonicalId;
        r := r[key := sp];
        rawR := rawR[key := sp];
        if canonical != key {
          r := r[canonical := sp];
        }
        n := n + 1;
        assert before + TenantPrincipals(tid, tenant, n) == done + [sp];
      }
    }

    static method AddClients(tenant: Tenant, ghost before: seq<(string, App)>, m: map<string, App>)
      returns (r: map<string, App>)
      requires m == FromPairs(before)
      ensures r == FromPairs(before + tenant.clients)
    {
      r := m;
      var n := 0;
      assert before + tenant.clients[..0] == before;
      while n < |tenant.clients|
        invariant 0 <= n <= |tenant.clients|
        invariant r == FromPairs(before + tenant.clients[..n])
      {
        var (aud, app) := tenant.clients[n];
        FromPairsSnoc(before + tenant.clients[..n], aud, app);
        r := r[aud := app];
        n := n + 1;
        assert before + tenant.clients[..n] == before + tenant.clients[..n - 1] + [(aud, app)];
      }
      assert tenant.clients[..n] == tenant.clients;
    }

    /** Re-reads the configuration. A rejected one leaves everything as it was; an unreadable one
        does too, and the error goes on to the caller. */
    method Reload(input: Input) returns (raised: bool)
      requires Separate()
      modifies this, Objects()
      ensures View() == if input.Valid? then Loaded(input.cfg) else old(View())
      ensures raised == input.Unreadable?
    {
      raised := input.Unreadable?;
      if input.Valid? {
        Apply(input.cfg);
      }
    }

    /** The Postgres store's reload: scalars first, then the records of every row, and only then the
        four identity dictionaries. A row that yields no record stops it halfway. */
    method FetchAndApply(rows: PgRows) returns (completed: bool)
      requires Separate()
      modifies this, Objects()
      ensures View() == AfterPgReload(old(View()), rows)
      ensures completed == Complete(rows)
    {
      var raised := FetchScalars(rows.config);
      if raised {
        return false;
      }
      var builtUsers, newUsers := Build(rows.users);
      if !builtUsers {
        return false;
      }
      var builtSps, sps := BuildSeq(rows.principals);
      if !builtSps {
        return false;
      }
      var newSps, newRaw := IndexRows(sps);
      var builtApps, newApps := Build(rows.clients);
      if !builtApps {
        return false;
      }
      RefillIdentities(newUsers, newSps, newRaw, newApps);
      completed := true;
    }

    method FetchScalars(config: Option<ConfigRow>) returns (raised: bool)
      modifies this, issuerModes
      ensures View() == ScalarsOf(old(View()), config)
      ensures raised == (config.Some? && UpdateRaises(config.value.issuerModes))
    {
      raised := false;
      if config.Some? {
        var row := config.value;
        mode := row.mode;
        adminToken := row.adminToken;
        corsOrigins := row.corsOrigins;
        raised := UpdateModes(row.issuerModes);
      }
    }

    static method IndexRows(sps: seq<(string, Principal)>)
      returns (newSps: map<string, Principal>, newRaw: map<string, Principal>)
      ensures newSps == Index(RowPrincipals(sps)) && newRaw == RawIndex(RowPrincipals(sps))
    {
      newSps, newRaw := map[], map[];
      var n := 0;
      while n < |sps|
        invariant 0 <= n <= |sps|
        invariant newSps == Index(RowPrincipals(sps[..n])) && newRaw == RawIndex(RowPrincipals(sps[..n]))
      {
        var (name, row) := sps[n];
        var sp := row.(name := name, canonicalId := EffectiveId(row, name));
        assert sps[..n + 1][..n] == sps[..n];
        assert RowPrincipals(sps[..n + 1]) == RowPrincipals(sps[..n]) + [sp];
        IndexSnoc(RowPrincipals(sps[..n]), sp);
        newSps := newSps[name := sp];
        newRaw := newRaw[name := sp];
        if sp.canonicalId != name {
          newSps := newSps[sp.canonicalId := sp];
        }
        n := n + 1;
      }
      assert sps[..n] == sps;
    }

    /** `clear()` followed by `update(modes)`, which puts in what it has read when it raises. */
    method UpdateModes(modes: Json) returns (raised: bool)
      modifies issuerModes
      ensures issuerModes.m == PutIn(modes)
      ensures raised == UpdateRaises(modes)
    {
      issuerModes.m := map[];
      match modes
      case Mapping(entries) =>
        issuerModes.m := issuerModes.m + entries;
        raised := false;
      case Listing(items) =>
        ghost var done: seq<(string, string)> := [];
        var n := 0;
        while n < |items|
          invariant 0 <= n <= |items|
          invariant AllBuilt(items[..n])
          invariant PairsRead(items) == done + PairsRead(items[n..]) && issuerModes.m == FromPairs(done)
        {
          if items[n].None? {
            assert items[n] in items && items[n..][0] == items[n] && done + [] == done;
            return true;
          }
          ReadOneMore(items, n, done);
          var (issuer, mode) := items[n].value;
          FromPairsSnoc(done, issuer, mode);
          issuerModes.m := issuerModes.m[issuer := mode];
          done := done + [(issuer, mode)];
          n := n + 1;
        }
        assert items[..n] == items && done + [] == done;
        raised := false;
      case Scalar =>
        raised := true;
    }

    static method BuildSeq<T>(rows: seq<Option<T>>) returns (ok: bool, records: seq<T>)
      ensures ok == AllBuilt(rows)
      ensures ok ==> records == Records(rows)
    {
      records := [];
      var n := 0;
      while n < |rows|
        invariant 0 <= n <= |rows|
        invariant AllBuilt(rows[..n]) && records == Records(rows[..n])
      {
        if rows[n].None? {
          assert rows[n] in rows;
          return false, [];
        }
        records := records + [rows[n].value];
        assert forall r :: r in rows[..n + 1] <==> r in rows[..n] || r == rows[n];
        n := n + 1;
      }
      assert rows[..n] == rows;
      ok := true;
    }

    static method Build<T>(rows: seq<Option<(string, T)>>) returns (ok: bool, m: map<string, T>)
      ensures ok == AllBuilt(rows)
      ensures ok ==> m == FromPairs(Records(rows))
    {
      var pairs;
      ok, pairs := BuildSeq(rows);
      m := map[];
      var n := 0;
      while n < |pairs|
        invariant 0 <= n <= |pairs|
        invariant m == FromPairs(pairs[..n])
      {
        assert pairs[..n + 1][..n] == pairs[..n];
        m := m[pairs[n].0 := pairs[n].1];
        n := n + 1;
      }
      assert pairs[..n] == pairs;
    }
  }

  // ── The Postgres rows ─────────────────────────────────────────────────────

  /** The JSON of the column issuer_modes, as `dict.update` reads it: a mapping; a list, or a text as the
      list of its characters, where None is an item that is no pair; or null, a number or a boolean. */
  datatype Json =
    | Mapping(entries: map<string, string>)
    | Listing(items: seq<Option<(string, string)>>)
    | Scalar

  function PairsRead(items: seq<Option<(string, string)>>): seq<(string, string)> {
    if items == [] || items[0].None? then [] else [items[0].value] + PairsRead(items[1..])
  }

  /** The entries `update` puts into an empty dictionary, until it ends or raises. */
  function PutIn(modes: Json): map<string, string> {
    match modes
    case Mapping(entries) => entries
    case Listing(items) => FromPairs(PairsRead(items))
    case Scalar => map[]
  }

  lemma ReadOneMore(items: seq<Option<(string, string)>>, n: nat, done: seq<(string, string)>)
    requires n < |items| && items[n].Some? && AllBuilt(items[..n])
    ensures done + PairsRead(items[n..]) == (done + [items[n].value]) + PairsRead(items[n + 1..])
    ensures AllBuilt(items[..n + 1])
  {
    assert items[n..][0] == items[n] && items[n..][1..] == items[n + 1..];
    assert forall i :: i in items[..n + 1] <==> i in items[..n] || i == items[n];
  }

  predicate UpdateRaises(modes: Json) {
    match modes
    case Mapping(_) => false
    case Listing(items) => !AllBuilt(items)
    case Scalar => true
  }

  datatype ConfigRow = ConfigRow(mode: string, adminToken: string, corsOrigins: seq<string>, issuerModes: Json)

  /** The rows of one organisation in fetch order; None is a row no record can be built from. */
  datatype PgRows = PgRows(
    config: Option<ConfigRow>, users: seq<Option<(string, User)>>,
    principals: seq<Option<(string, Principal)>>, clients: seq<Option<(string, App)>>)

  predicate AllBuilt<T(==)>(rows: seq<Option<T>>) {
    forall r :: r in rows ==> r.Some?
  }

  function Records<T>(rows: seq<Option<T>>): seq<T>
    requires AllBuilt(rows)
  {
    seq(|rows|, n requires 0 <= n < |rows| => assert rows[n] in rows; rows[n].value)
  }

  function RowPrincipals(rows: seq<(string, Principal)>): seq<Principal> {
    if rows == [] then []
    else
      var (name, sp) := rows[|rows| - 1];
      RowPrincipals(rows[..|rows| - 1]) + [sp.(name := name, canonicalId := EffectiveId(sp, name))]
  }

  predicate Complete(rows: PgRows) {
    && (rows.config.Some? ==> !UpdateRaises(rows.config.value.issuerModes))
    && AllBuilt(rows.users) && AllBuilt(rows.principals) && AllBuilt(rows.clients)
  }

  function ScalarsOf(view: Snapshot, config: Option<ConfigRow>): Snapshot {
    match config
    case None => view
    case Some(row) =>
      view.(mode := row.mode, adminToken := row.adminToken, corsOrigins := row.corsOrigins,
            issuerModes := PutIn(row.issuerModes))
  }

  function AfterPgReload(view: Snapshot, rows: PgRows): Snapshot {
    var v := ScalarsOf(view, rows.config);
    if Complete(rows) then
      v.(users := FromPairs(Records(rows.users)), principals := Index(RowPrincipals(Records(rows.principals))),
         principalsRaw := RawIndex(RowPrincipals(Records(rows.principals))), clients := FromPairs(Records(rows.clients)))
    else v
  }

  /** A failing Postgres reload is meant to keep the current state. The four identity dictionaries
      always do; the whole state does exactly when the app_config row, if there was one, put in
      what was there. */
  lemma FailedPgReloadKeepsStateExactlyWhen(view: Snapshot, rows: PgRows)
    requires !Complete(rows)
    ensures var v := AfterPgReload(view, rows);
            && v.users == view.users && v.principals == view.principals
            && v.principalsRaw == view.principalsRaw && v.clients == view.clients
    ensures AfterPgReload(view, rows) == view <==>
            (rows.config.Some? ==>
               var row := rows.config.value;
               && row.mode == view.mode && row.adminToken == view.adminToken && row.corsOrigins == view.corsOrigins
               && PutIn(row.issuerModes) == view.issuerModes)
  {
  }

  function SameScalars(view: Snapshot, modes: Json): ConfigRow {
    ConfigRow(view.mode, view.adminToken, view.corsOrigins, modes)
  }

  /** A row that repeats the current scalars but has null for issuer_modes fails the reload, and the
      current modes are gone; */
  lemma NullModesAreLost(view: Snapshot, users: seq<Option<(string, User)>>)
    requires view.issuerModes != map[]
    ensures var rows := PgRows(Some(SameScalars(view, Scalar)), users, [], []);
            !Complete(rows) && AfterPgReload(view, rows) == view.(issuerModes := map[]) != view
  {
  }

  /** a list whose second item is no pair leaves the first. */
  lemma BrokenListLeavesItsFront(view: Snapshot, users: seq<Option<(string, User)>>, issuer: string, mode: string)
    ensures var rows := PgRows(Some(SameScalars(view, Listing([Some((issuer, mode)), None]))), users, [], []);
            !Complete(rows) && AfterPgReload(view, rows) == view.(issuerModes := map[issuer := mode])
  {
    OnePairPutIn(issuer, mode);
  }

  lemma OnePairPutIn(issuer: string, mode: string)
    ensures var modes := Listing([Some((issuer, mode)), None]);
            UpdateRaises(modes) && PutIn(modes) == map[issuer := mode]
  {
    var items := [Some((issuer, mode)), None];
    assert items[1] in items && PairsRead(items[1..]) == [];
    assert PairsRead(items) == [] + [(issuer, mode)];
    FromPairsSnoc([], issuer, mode);
  }

  lemma IndexSnoc(entries: seq<Principal>, e: Principal)
    ensures Index(entries + [e])
            == (if e.canonicalId != e.name then Index(entries)[e.name := e][e.canonicalId := e]
                else Index(entries)[e.name := e])
    ensures RawIndex(entries + [e]) == RawIndex(entries)[e.name := e]
  {
  }
}
