/**
 * `ClientCache` of src/client/client-cache.ts: clients kept per numeric
 * render id, created once per id, removed by `gc`. `Date.now()` is the
 * parameter `now`; calling the factory is represented by the promise it
 * returns, passed in as `made`.
 */
module ClientCacheById {
  import opened Wrappers
  import opened ClientEntry

  class ClientCache {
    var cache: map<int, Entry>

    /** Every entry can be served by `get`. */
    ghost predicate Valid()
      reads this, cache.Values
    {
      forall id :: id in cache ==> Servable(cache[id])
    }

    constructor ()
      ensures Valid() && cache == map[]
    {
      cache := map[];
    }

    /** Lines 63-65. */
    method Has(id: int) returns (b: bool)
      ensures b <==> id in cache
    {
      b := id in cache;
    }

    /** Lines 41-46: a new entry holding the pending factory, expiring a second from now. */
    method Set(id: int, factory: Promise, now: int)
      requires Valid()
      modifies this
      ensures Valid()
      ensures cache.Keys == old(cache).Keys + {id}
      ensures fresh(cache[id])
      ensures cache[id].factory == Some(factory) && cache[id].client == None && cache[id].expires == now + 1000
      ensures forall k :: k in old(cache) && k != id ==> cache[k] == old(cache)[k]
    {
      var e := new Entry(factory, now + 1000);
      cache := cache[id := e];
    }

    /** Lines 37-39: exactly the entry for `id` goes. */
    method Gc(id: int)
      requires Valid()
      modifies this
      ensures Valid()
      ensures cache == old(cache) - {id}
    {
      cache := cache - {id};
    }

    /** Lines 48-54, up to the `await`. */
    method Get(id: int) returns (step: GetStep)
      requires Valid()
      ensures id !in cache ==> step == NoEntry
      ensures id in cache && cache[id].client.Some? ==> step == Ready(cache[id].client.value)
      ensures id in cache && cache[id].client.None? ==> step == Awaiting(cache[id], cache[id].factory.value)
    {
      if id !in cache {
        return NoEntry;
      }
      step := BeginGet(cache[id]);
    }

    /**
     * Lines 21-34, up to the `await`: the factory is called (its promise
     * `made` stored) only when there is no entry for `id`; an existing entry
     * is kept, and `get` then never fails.
     */
    method GetClient(id: int, made: Promise, now: int) returns (invoked: bool, step: GetStep)
      requires Valid()
      modifies this
      ensures Valid()
      ensures invoked <==> id !in old(cache)
      ensures !invoked ==> cache == old(cache)
      ensures invoked ==> cache.Keys == old(cache).Keys + {id} && fresh(cache[id]) && step == Awaiting(cache[id], made)
      ensures invoked ==> cache[id].factory == Some(made) && cache[id].client == None && cache[id].expires == now + 1000
      ensures forall k :: k in old(cache) ==> cache[k] == old(cache)[k]
      ensures id in cache
      ensures cache[id].client.Some? ==> step == Ready(cache[id].client.value)
      ensures cache[id].client.None? ==> cache[id].factory.Some? && step == Awaiting(cache[id], cache[id].factory.value)
    {
      var present := Has(id);
      invoked := !present;
      if invoked {
        Set(id, made, now);
      }
      step := Get(id);
    }
  }

  /**
   * Two `getClient` calls for the same id before either resolves: the
   * factory is called once and both resolve to the same client; a later
   * call returns it at once without calling the factory.
   */
  method SameIdSharesOneClient(made1: Promise, made2: Promise, made3: Promise, now: int)
    returns (invocations: nat, c1: Client, c2: Client, c3: Client)
    ensures invocations == 1
    ensures c1 == made1.settlesTo && c2 == c1 && c3 == c1
  {
    var cc := new ClientCache();
    var inv1, s1 := cc.GetClient(1, made1, now);
    var inv2, s2 := cc.GetClient(1, made2, now);
    invocations := (if inv1 then 1 else 0) + (if inv2 then 1 else 0);
    c1 := FinishGet(s1.store, s1.pending);
    c2 := FinishGet(s2.store, s2.pending);
    var inv3, s3 := cc.GetClient(1, made3, now);
    invocations := invocations + (if inv3 then 1 else 0);
    c3 := s3.client;
  }

  /** Two ids get entries of their own, each from its own factory call. */
  method DistinctIdsGetOwnClients(made1: Promise, made2: Promise, now: int)
    returns (invocations: nat, c1: Client, c2: Client)
    ensures invocations == 2
    ensures c1 == made1.settlesTo && c2 == made2.settlesTo
  {
    var cc := new ClientCache();
    var inv1, s1 := cc.GetClient(1, made1, now);
    var inv2, s2 := cc.GetClient(2, made2, now);
    invocations := (if inv1 then 1 else 0) + (if inv2 then 1 else 0);
    c1 := FinishGet(s1.store, s1.pending);
    c2 := FinishGet(s2.store, s2.pending);
  }

  /**
   * After `gc(1)` the cache no longer has 1 but still has 2, and the next
   * `getClient` for 1 calls the factory again.
   */
  method GcForgetsOnlyThatId(made1: Promise, made2: Promise, made3: Promise, now: int)
    returns (has1: bool, has2: bool, invokedAgain: bool, c: Client)
    ensures !has1 && has2 && invokedAgain
    ensures c == made3.settlesTo
  {
    var cc := new ClientCache();
    var inv1, s1 := cc.GetClient(1, made1, now);
    var inv2, s2 := cc.GetClient(2, made2, now);
    var c1 := FinishGet(s1.store, s1.pending);
    var c2 := FinishGet(s2.store, s2.pending);
    cc.Gc(1);
    has1 := cc.Has(1);
    has2 := cc.Has(2);
    var s3;
    invokedAgain, s3 := cc.GetClient(1, made3, now);
    c := FinishGet(s3.store, s3.pending);
  }
}
