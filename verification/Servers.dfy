/** The flat server as the mutable objects it is made of: the key store, the fault map and the
    clock. Every operation is a step of Lifecycle, so what is proved there about runs holds here. */
module Servers {
  import opened Wrappers
  import opened Keys
  import opened Tokens
  import opened KeyObjects
  import opened Lifecycle
  import Chaos
  import Introspection

  class Server {
    const keys: KeyStore
    const chaos: Chaos.Faults
    var now: nat

    ghost predicate Valid()
      reads keys
    {
      keys.Valid()
    }

    ghost function View(): State
      reads this, keys, keys.gen, keys.stores.Values, chaos
    {
      State(keys.View(), chaos.faults, now)
    }

    constructor (now: nat)
      ensures Valid() && View() == State(Stores.EMPTY, map[], now)
      ensures fresh(keys) && fresh(keys.gen) && fresh(chaos) && keys.stores == map[]
    {
      keys := new KeyStore();
      chaos := new Chaos.Faults();
      this.now := now;
    }

    method Advance(seconds: nat)
      modifies this
      ensures Valid() == old(Valid()) && View() == Step(old(View()), Tick(seconds))
    {
      now := now + seconds;
    }

    method Rotate(issuer: string) returns (kid: string)
      requires Valid()
      modifies keys, keys.gen, keys.stores.Values
      ensures Valid() && View() == Step(old(View()), RotateOne(issuer))
      ensures kid == View().keys.sets[issuer].signing.Kid()
      ensures fresh(keys.stores.Values - old(keys.stores.Values))
    {
      var key := keys.Rotate(issuer);
      kid := key.Kid();
    }

    method RotateAll() returns (kids: map<string, string>)
      requires Valid()
      modifies keys.gen, keys.stores.Values
      ensures Valid() && View() == Step(old(View()), RotateEvery)
      ensures kids == SigningKids(View().keys.sets)
    {
      kids := keys.RotateAll();
    }

    method InjectFault(issuer: string, fault: Fault)
      requires Valid()
      modifies chaos
      ensures Valid() && View() == Step(old(View()), SetFault(issuer, fault))
    {
      chaos.SetFault(issuer, fault);
    }

    method RemoveFault(issuer: string) returns (present: bool)
      requires Valid()
      modifies chaos
      ensures Valid() && View() == Step(old(View()), ClearFault(issuer))
      ensures present == FaultOf(old(View()), issuer).Some?
    {
      present := chaos.ClearFault(issuer);
    }

    /** Signs under the fault of the issuer. An unsigned token needs no key, so an unknown issuer then
        stays unknown. */
    method IssueToken(issuer: string, alg: string, claims: Claims) returns (token: Token)
      requires Valid()
      modifies keys, keys.gen
      ensures Valid() && token == Issue(old(View()), issuer, alg, claims)
      ensures View() == if token.Unsigned? then old(View()) else Step(old(View()), Use(issuer))
      ensures fresh(keys.stores.Values - old(keys.stores.Values))
    {
      ghost var s := View();
      IssueByFault(s, issuer, alg, claims);
      var fault := chaos.GetFault(issuer);
      assert fault == FaultOf(s, issuer);
      match fault
      case Some(InvalidToken) =>
        token := Unsigned(claims);
      case Some(InvalidSignature) =>
        token := SignWithAlternative(issuer, alg, claims);
      case Some(ExpiredToken(skew)) =>
        token := SignWithCurrent(issuer, alg, claims["exp" := Num(now + skew)]);
      case _ =>
        token := SignWithCurrent(issuer, alg, claims);
    }

    method SignWithCurrent(issuer: string, alg: string, claims: Claims) returns (token: Token)
      requires Valid()
      modifies keys, keys.gen
      ensures Valid() && token == SignNow(old(View()), issuer, alg, claims)
      ensures View() == Step(old(View()), Use(issuer))
      ensures fresh(keys.stores.Values - old(keys.stores.Values))
    {
      var ks := keys.Get(issuer);
      token := Sign(claims, ks.View().SigningKeyForAlg(alg));
    }

    /** The wrong-sig endpoint's way of signing. */
    method SignWithAlternative(issuer: string, alg: string, claims: Claims) returns (token: Token)
      requires Valid()
      modifies keys, keys.gen
      ensures Valid() && token == IssueWrongSig(old(View()), issuer, alg, claims)
      ensures View() == Step(old(View()), Use(issuer))
      ensures fresh(keys.stores.Values - old(keys.stores.Values))
    {
      var ks := keys.Get(issuer);
      token := Sign(claims, ks.View().AltKeyForAlg(alg));
    }

    method Jwks(issuer: string) returns (jwks: seq<Key>)
      requires Valid()
      modifies keys, keys.gen
      ensures Valid() && View() == Step(old(View()), Use(issuer))
      ensures jwks == Stores.JwksAt(old(View()).keys, issuer)
      ensures fresh(keys.stores.Values - old(keys.stores.Values))
    {
      var ks := keys.Get(issuer);
      jwks := ks.JwksKeys();
    }

    method IntrospectToken(issuer: string, caller: Introspection.Caller, token: Token)
      returns (reply: Introspection.Verdict)
      requires Valid()
      modifies keys, keys.gen
      ensures Valid() && reply == Introspection.IntrospectAt(old(View()), issuer, caller, token)
      ensures View() == if caller.authenticated then Step(old(View()), Use(issuer)) else old(View())
      ensures fresh(keys.stores.Values - old(keys.stores.Values))
    {
      if !caller.authenticated {
        return Introspection.InvalidClient;
      }
      var jwks := Jwks(issuer);
      reply := Introspection.HandleIntrospect(caller, Some(token), jwks, now);
    }

    /** Performs one event; a use of an issuer is a request for its published keys. */
    method Perform(e: Event)
      requires Valid()
      modifies this, keys, keys.gen, keys.stores.Values, chaos
      ensures Valid() && View() == Step(old(View()), e)
      ensures fresh(keys.stores.Values - old(keys.stores.Values))
    {
      match e
      case Use(issuer) => var _ := Jwks(issuer);
      case RotateOne(issuer) => var _ := Rotate(issuer);
      case RotateEvery => var _ := RotateAll();
      case SetFault(issuer, fault) => InjectFault(issuer, fault);
      case ClearFault(issuer) => var _ := RemoveFault(issuer);
      case Tick(seconds) => Advance(seconds);
    }

    /** A whole history of events on the objects is a run of Lifecycle. */
    method Replay(es: seq<Event>)
      requires Valid()
      modifies this, keys, keys.gen, keys.stores.Values, chaos
      ensures Valid() && View() == Run(old(View()), es)
      ensures fresh(keys.stores.Values - old(keys.stores.Values))
    {
      ghost var start := View();
      var n := 0;
      while n < |es|
        invariant 0 <= n <= |es|
        invariant Valid() && Run(View(), es[n..]) == Run(start, es)
        invariant fresh(keys.stores.Values - old(keys.stores.Values))
      {
        assert es[n..][0] == es[n] && es[n..][1..] == es[n + 1..];
        Perform(es[n]);
        n := n + 1;
      }
    }
  }
}
