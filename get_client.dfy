/**
 * `ClientCache` and `getClient` of src/client/get-client.ts: the same
 * entry handling as the numeric cache, keyed by string ids, plus the body
 * of the sweep that the server schedules every second. `Date.now()` is the
 * parameter `now`; the factory call is represented by the promise it
 * returns, passed in as `made`.
 */
module GetClient {
  import opened Wrappers
  import opened ClientEntry

  class ClientCache {
    var cache: map<string, Entry>

    /** Every entry can be served by `get`. */
    ghost predicate Valid()
      reads this, cache.Values
    {
      forall id :: id in cache ==> Servable(cache[id])
    }

    constructor ()
      ensures Valid() && cache == map[]
    {
      cache := map[];
    }

    /** Lines 58-60. */
    method Has(id: string) returns (b: bool)
      ensures b <==> id in cache
    {
      b := id in cache;
    }

    /** Lines 36-41: a new entry holding the pending factory, expiring a second from now. */
    method Set(id: string, factory: Promise, now: int)
      requires Valid()
      modifies this
      ensures Valid()
      ensures cache.Keys == old(cache).Keys + {id}
      ensures fresh(cache[id])
      ensures cache[id].factory == Some(factory) && cache[id].client == None && cache[id].expires == now + 1000
      ensures forall k :: k in old(cache) && k != id ==> cache[k] == old(cache)[k]
    {
      var e := new Entry(factory, now + 1000);
      cache := cache[id := e];
    }

    /** Lines 43-49, up to the `await`. */
    method Get(id: string) returns (step: GetStep)
      requires Valid()
      ensures id !in cache ==> step == NoEntry
      ensures id in cache && cache[id].client.Some? ==> step == Ready(cache[id].client.value)
      ensures id in cache && cache[id].client.None? ==> step == Awaiting(cache[id], cache[id].factory.value)
    {
      if id !in cache {
        return NoEntry;
      }
      step := BeginGet(cache[id]);
    }

    /**
     * One pass of the timer set up at lines 24-32, as written: it deletes
     * every entry whose expiry time is still in the future (`now < expires`)
     * and keeps every other one.
     */
    method Sweep(now: int)
      requires Valid()
      modifies this
      ensures Valid()
      ensures cache == map k | k in old(cache) && !(now < old(cache)[k].expires) :: old(cache)[k]
    {
      var keys := cache.Keys;
      while keys != {}
        invariant keys <= old(cache).Keys
        invariant cache == map k | k in old(cache) && (k in keys || !(now < old(cache)[k].expires)) :: old(cache)[k]
        decreases keys
      {
        var key :| key in keys;
        if now < cache[key].expires {
          cache := cache - {key};
        }
        keys := keys - {key};
      }
    }

    /**
     * The sweep its comment describes ("remove clients older than 1
     * second"): it deletes the entries whose expiry time has passed and keeps
     * the others.
     */
    method SweepExpired(now: int)
      requires Valid()
      modifies this
      ensures Valid()
      ensures cache == map k | k in old(cache) && !(old(cache)[k].expires < now) :: old(cache)[k]
    {
      var keys := cache.Keys;
      while keys != {}
        invariant keys <= old(cache).Keys
        invariant cache == map k | k in old(cache) && (k in keys || !(old(cache)[k].expires < now)) :: old(cache)[k]
        decreases keys
      {
        var key :| key in keys;
        if cache[key].expires < now {
          cache := cache - {key};
        }
        keys := keys - {key};
      }
    }

    /**
     * Lines 62-78, up to the `await`: the factory is called (its promise
     * `made` stored) only when `has(id)` is false; an existing entry is
     * kept, and `get` then never fails.
     */
    method GetClient(id: string, made: Promise, now: int) returns (invoked: bool, step: GetStep)
      requires Valid()
      modifies this
      ensures Valid()
      ensures invoked <==> id !in old(cache)
      ensures !invoked ==> cache == old(cache)
      ensures invoked ==> cache.Keys == old(cache).Keys + {id} && fresh(cache[id]) && step == Awaiting(cache[id], made)
      ensures invoked ==> cache[id].factory == Some(made) && cache[id].client == None && cache[id].expires == now + 1000
      ensures forall k :: k in old(cache) ==> cache[k] == old(cache)[k]
      ensures id in cache
      ensures cache[id].client.Some? ==> step == Ready(cache[id].client.value)
      ensures cache[id].client.None? ==> cache[id].factory.Some? && step == Awaiting(cache[id], cache[id].factory.value)
    {
      var present := Has(id);
      invoked := !present;
      if invoked {
        Set(id, made, now);
      }
      step := Get(id);
    }
  }

  /**
   * As written, a sweep within a second of creation deletes the entry, while
   * an entry whose second has passed survives the sweeps at now + 1000 and
   * now + 100000 (`Sweep`'s own contract keeps such an entry at any tick).
   */
  method SweepKeepsOnlyExpired(made: Promise, now: int) returns (keptEarly: bool, keptLate: bool, keptMuchLater: bool)
    ensures !keptEarly && keptLate && keptMuchLater
  {
    var cc := new ClientCache();
    var invoked, step := cc.GetClient("a", made, now);
    cc.Sweep(now + 1);
    keptEarly := cc.Has("a");
    invoked, step := cc.GetClient("b", made, now);
    var b := cc.cache["b"];
    assert b.expires == now + 1000;
    cc.Sweep(now + 1000);
    assert "b" in cc.cache && cc.cache["b"] == b;
    keptLate := cc.Has("b");
    cc.Sweep(now + 100000);
    keptMuchLater := cc.Has("b");
  }

  /** The intended sweep keeps an entry for its first second and deletes it afterwards. */
  method SweepExpiredKeepsYoung(made: Promise, now: int) returns (keptEarly: bool, keptLate: bool)
    ensures keptEarly && !keptLate
  {
    var cc := new ClientCache();
    var invoked, step := cc.GetClient("a", made, now);
    var a := cc.cache["a"];
    cc.SweepExpired(now + 1);
    assert "a" in cc.cache && cc.cache["a"] == a;
    keptEarly := cc.Has("a");
    cc.SweepExpired(now + 1001);
    keptLate := cc.Has("a");
  }
}
