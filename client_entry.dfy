/**
 * The entry kept per id by both client caches
 * (src/client/client-cache.ts and src/client/get-client.ts), and the two
 * halves of their identical `get`: up to the `await`, and after it.
 */
module ClientEntry {
  import opened Wrappers

  /** An urql `Client`, by identity. */
  type Client = nat

  /**
   * A pending `Promise<Client>` (the shared wrapper around the factory's
   * promise): `serial` tells promises apart, `settlesTo` is the client it
   * resolves to, the same for everyone who awaits it.
   */
  datatype Promise = Promise(serial: nat, settlesTo: Client)

  /** `ClientCacheEntry`: the pending factory, the resolved client, the expiry time in milliseconds. */
  class Entry {
    var factory: Option<Promise>
    var client: Option<Client>
    var expires: int

    constructor (factory: Promise, expires: int)
      ensures this.factory == Some(factory) && client == None && this.expires == expires
    {
      this.factory := Some(factory);
      client := None;
      this.expires := expires;
    }
  }

  /** `get` can serve an entry: it holds a client or a pending factory. */
  ghost predicate Servable(e: Entry)
    reads e
  {
    e.client.Some? || e.factory.Some?
  }

  /**
   * Where `get` stands once it has looked at the entry: the client is
   * returned, the factory is being awaited, it threw "Client factory not
   * found", or there was no entry at all (`store.client` on `undefined`).
   */
  datatype GetStep =
    | Ready(client: Client)
    | Awaiting(store: Entry, pending: Promise)
    | FactoryNotFound
    | NoEntry

  /** `get` up to its `await` (client-cache.ts:49-54, get-client.ts:44-49). */
  method BeginGet(store: Entry) returns (step: GetStep)
    ensures store.client.Some? ==> step == Ready(store.client.value)
    ensures store.client.None? && store.factory.Some? ==> step == Awaiting(store, store.factory.value)
    ensures store.client.None? && store.factory.None? ==> step == FactoryNotFound
    ensures step.FactoryNotFound? <==> !Servable(store)
  {
    if store.client.None? {
      if store.factory.None? {
        return FactoryNotFound;
      }
      return Awaiting(store, store.factory.value);
    }
    step := Ready(store.client.value);
  }

  /**
   * `get` after its `await` (client-cache.ts:56-60, get-client.ts:51-55):
   * the entry now holds the client and no factory, whether or not it is
   * still in the cache.
   */
  method FinishGet(store: Entry, pending: Promise) returns (c: Client)
    modifies store
    ensures c == pending.settlesTo
    ensures store.client == Some(c) && store.factory == None && store.expires == old(store.expires)
  {
    store.client := Some(pending.settlesTo);
    store.factory := None;
    c := store.client.value;
  }
}
