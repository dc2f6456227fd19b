/** The exported configuration (src/mock_idp/config.py): dictionary references taken once, and
    scalars re-bound after every reload; and the watcher that reloads (src/mock_idp/main.py). */
module Config {
  import opened Wrappers
  import opened Models
  import opened IdentityStore

  /** The environment variable wins over the configured admin token. */
  function AdminToken(env: string, configured: string): string {
    if env != "" then env else configured
  }

  /** What a run of reloads leaves in the store. */
  function AfterReloads(view: Snapshot, inputs: seq<Input>): Snapshot {
    if inputs == [] then view
    else if inputs[|inputs| - 1].Valid? then Loaded(inputs[|inputs| - 1].cfg)
    else AfterReloads(view, inputs[..|inputs| - 1])
  }

  /** After any run of reloads with valid and invalid input, the store holds exactly what the last
      valid configuration means, */
  lemma {:induction false} LastValidConfigCounts(view: Snapshot, inputs: seq<Input>, p: nat)
    requires p < |inputs| && inputs[p].Valid?
    requires forall n :: p < n < |inputs| ==> !inputs[n].Valid?
    ensures AfterReloads(view, inputs) == Loaded(inputs[p].cfg)
  {
    if p < |inputs| - 1 {
      LastValidConfigCounts(view, inputs[..|inputs| - 1], p);
    }
  }

  /** and without a valid one, what it held before. */
  lemma {:induction false} WithoutValidConfigNothingChanges(view: Snapshot, inputs: seq<Input>)
    requires forall n :: 0 <= n < |inputs| ==> !inputs[n].Valid?
    ensures AfterReloads(view, inputs) == view
  {
    if inputs != [] {
      WithoutValidConfigNothingChanges(view, inputs[..|inputs| - 1]);
    }
  }

  class Settings {
    const store: Store
    const users: Dict<User>
    const principals: Dict<Principal>
    const principalsRaw: Dict<Principal>
    const clients: Dict<App>
    const issuerModes: Dict<string>
    var mode: string
    var adminToken: string
    var corsOrigins: seq<string>
    var webhooks: seq<string>

    /** The exported references are the store's own dictionary objects. */
    ghost predicate Valid() {
      && store.Separate()
      && users == store.users && principals == store.principals && principalsRaw == store.principalsRaw
      && clients == store.clients && issuerModes == store.issuerModes
    }

    ghost predicate ScalarsAgree(env: string)
      reads this, store
    {
      && mode == store.mode
      && adminToken == (if env == "" then store.adminToken else env)
      && corsOrigins == store.corsOrigins
      && webhooks == store.webhooks
    }

    constructor (store: Store, env: string)
      requires store.Separate()
      ensures Valid() && this.store == store && ScalarsAgree(env)
    {
      this.store := store;
      users, principals, principalsRaw := store.users, store.principals, store.principalsRaw;
      clients, issuerModes := store.clients, store.issuerModes;
      mode, adminToken := store.mode, AdminToken(env, store.adminToken);
      corsOrigins, webhooks := store.corsOrigins, store.webhooks;
    }

    /** Everyone who holds an exported dictionary sees the reloaded contents in the same object. */
    method ReloadConfig(input: Input, env: string) returns (completed: bool)
      requires Valid()
      modifies this, store, store.Objects()
      ensures completed == !input.Unreadable?
      ensures store.View() == AfterReloads(old(store.View()), [input])
      ensures input.Valid? ==>
                && users.m == Loaded(input.cfg).users && principals.m == Loaded(input.cfg).principals
                && principalsRaw.m == Loaded(input.cfg).principalsRaw && clients.m == Loaded(input.cfg).clients
                && issuerModes.m == Loaded(input.cfg).issuerModes
      ensures completed ==> ScalarsAgree(env)
      ensures !completed ==> mode == old(mode) && adminToken == old(adminToken)
                             && corsOrigins == old(corsOrigins) && webhooks == old(webhooks)
    {
      var raised := store.Reload(input);
      if raised {
        return false;
      }
      mode := store.mode;
      adminToken := AdminToken(env, store.adminToken);
      corsOrigins := store.corsOrigins;
      webhooks := store.webhooks;
      completed := true;
    }

    /** The file watcher reloads on every change, until a reload raises and ends it. */
    method WatchConfig(changes: seq<Input>, env: string) returns (n: nat)
      requires Valid() && ScalarsAgree(env)
      modifies this, store, store.Objects()
      ensures n <= |changes| && (n < |changes| ==> changes[n].Unreadable?)
      ensures store.View() == AfterReloads(old(store.View()), changes[..n])
      ensures ScalarsAgree(env)
    {
      n := 0;
      while n < |changes|
        invariant n <= |changes|
        invariant store.View() == AfterReloads(old(store.View()), changes[..n])
        invariant ScalarsAgree(env)
      {
        ghost var before := store.View();
        var completed := ReloadConfig(changes[n], env);
        assert changes[..n + 1][..n] == changes[..n];
        if !completed {
          return;
        }
        n := n + 1;
      }
    }
  }
}
