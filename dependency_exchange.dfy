/**
 * The dependency-tracking exchange of src/exchange/qwik-exchange.ts.
 *
 * The exchange keeps two tables: `dependencies`, from an entity key
 * ("<__typename>:<id>") to the operation keys whose data contained that
 * entity, in the order they were recorded, and `triggers`, from an operation
 * key to the value of that operation's wake-up counter. On a request it
 * stores a watched operation's counter and may switch it to the
 * 'cache-first' policy; on a response it walks the data, increments the
 * counter of every other operation depending on an entity met, and, on an
 * operation's first run, records the entities its data contains.
 */
module DependencyExchange {
  import opened Wrappers
  import opened Json
  import opened EntityWalk

  /** `Operation.key` */
  type OperationKey = int

  datatype RequestPolicy = CacheFirst | CacheOnly | NetworkOnly | CacheAndNetwork

  /**
   * The parts of an outgoing operation the exchange reads or writes:
   * `context.watch`, the current value of `context.trigger` (absent when the
   * context has no trigger) and `context.requestPolicy`.
   */
  datatype Operation = Operation(key: OperationKey, watch: bool, trigger: Option<int>, requestPolicy: RequestPolicy)

  datatype CacheOutcome = Miss | Partial | Hit

  /**
   * The parts of a result the exchange reads: the operation key,
   * `operation.context.meta?.cacheOutcome` and `data` (an absent `data` is
   * `JNull`: both are falsy, and falsy data is never walked).
   */
  datatype OperationResult = OperationResult(key: OperationKey, cacheOutcome: Option<CacheOutcome>, data: Json)

  /** The `Cache` record shared with the hooks. */
  datatype Cache = Cache(dependencies: map<string, seq<OperationKey>>, triggers: map<OperationKey, int>)

  /**
   * Every operation listed as a dependent has a trigger, so that
   * `this.cache.triggers[dep].value++` never dereferences `undefined`.
   */
  ghost predicate Consistent(c: Cache) {
    forall e, d :: e in c.dependencies && d in c.dependencies[e] ==> d in c.triggers
  }

  /** `dependencies[e]`, or no dependents when the entry is absent. */
  function DependentsOf(deps: map<string, seq<OperationKey>>, e: string): seq<OperationKey> {
    if e in deps then deps[e] else []
  }

  /** Append `key` to the list of `e`, creating `[key]` when there is none. */
  function Record(deps: map<string, seq<OperationKey>>, e: string, key: OperationKey): map<string, seq<OperationKey>> {
    if e !in deps then deps[e := [key]] else deps[e := deps[e] + [key]]
  }

  /** Record `key` against every entity key of `es`, in order. */
  function RecordAll(deps: map<string, seq<OperationKey>>, es: seq<string>, key: OperationKey): map<string, seq<OperationKey>>
    decreases |es|
  {
    if es == [] then deps else Record(RecordAll(deps, es[..|es| - 1], key), es[|es| - 1], key)
  }

  /** All operations listed against any entity key of `es`. */
  function Dependents(deps: map<string, seq<OperationKey>>, es: seq<string>): set<OperationKey>
    decreases |es|
  {
    if es == [] then {}
    else Dependents(deps, es[..|es| - 1]) + Elems(DependentsOf(deps, es[|es| - 1]))
  }

  function Elems(s: seq<OperationKey>): set<OperationKey> {
    set d | d in s
  }

  /** Increment the counters of the operations in `woken`, leaving the others alone. */
  function Bump(triggers: map<OperationKey, int>, woken: set<OperationKey>): map<OperationKey, int> {
    map k | k in triggers :: if k in woken then triggers[k] + 1 else triggers[k]
  }

  /** How many times `e` occurs in `es`. */
  function Count(es: seq<string>, e: string): nat
    decreases |es|
  {
    if es == [] then 0 else Count(es[..|es| - 1], e) + (if es[|es| - 1] == e then 1 else 0)
  }

  /** `n` copies of `key`. */
  function Repeat(key: OperationKey, n: nat): seq<OperationKey> {
    if n == 0 then [] else Repeat(key, n - 1) + [key]
  }

  /**
   * `processRequest`, on the cache value: the new cache and the operation
   * as it leaves the exchange.
   */
  function Request(c: Cache, op: Operation): (Cache, Operation)
    requires op.watch ==> op.trigger.Some?
  {
    var triggers := if op.watch then c.triggers[op.key := op.trigger.value] else c.triggers;
    var policy := if op.watch && op.trigger.value > 0 then CacheFirst else op.requestPolicy;
    (Cache(c.dependencies, triggers), op.(requestPolicy := policy))
  }

  /** The response is fresh data: not replayed from the cache, and `data` is truthy. */
  predicate IsFresh(r: OperationResult) {
    r.cacheOutcome != Some(Hit) && Truthy(Some(r.data))
  }

  /** The operations a fresh response wakes: dependents of the entities met, except the responder. */
  function Woken(c: Cache, r: OperationResult): set<OperationKey> {
    if IsFresh(r) then Dependents(c.dependencies, TrigWalk(r.data).keys) - {r.key} else {}
  }

  /**
   * `processResponse`, on the cache value: the new cache, and `false` when
   * one of the walks threw (what it had done before throwing stays done).
   */
  function Respond(c: Cache, r: OperationResult): (Cache, bool) {
    var triggers := if IsFresh(r) then Bump(c.triggers, Woken(c, r)) else c.triggers;
    if IsFresh(r) && !TrigWalk(r.data).ok then (Cache(c.dependencies, triggers), false)
    else if r.key in triggers && triggers[r.key] == 0 && Truthy(Some(r.data)) then
      (Cache(RecordAll(c.dependencies, SetWalk(r.data).keys, r.key), triggers), SetWalk(r.data).ok)
    else (Cache(c.dependencies, triggers), true)
  }

  // ----- facts about the tables -----

  lemma {:induction false} DependentsAppend(deps: map<string, seq<OperationKey>>, a: seq<string>, b: seq<string>)
    ensures Dependents(deps, a + b) == Dependents(deps, a) + Dependents(deps, b)
    decreases |b|
  {
    if b == [] {
      assert a + b == a;
    } else {
      assert (a + b)[..|a + b| - 1] == a + b[..|b| - 1];
      DependentsAppend(deps, a, b[..|b| - 1]);
    }
  }

  /** An operation is a dependent of `es` exactly when it is listed against one of its entity keys. */
  lemma {:induction false} DependentsMembership(deps: map<string, seq<OperationKey>>, es: seq<string>, d: OperationKey)
    ensures d in Dependents(deps, es) <==> exists i :: 0 <= i < |es| && d in DependentsOf(deps, es[i])
    decreases |es|
  {
    if es != [] {
      var init := es[..|es| - 1];
      DependentsMembership(deps, init, d);
      if d in Dependents(deps, init) {
        var i :| 0 <= i < |init| && d in DependentsOf(deps, init[i]);
        assert es[i] == init[i];
      }
      if exists i :: 0 <= i < |es| && d in DependentsOf(deps, es[i]) {
        var i :| 0 <= i < |es| && d in DependentsOf(deps, es[i]);
        if i < |es| - 1 {
          assert init[i] == es[i];
        }
      }
    }
  }

  /** Meeting the same entities twice wakes nobody more than meeting them once. */
  lemma RepeatedVisitsWakeNoMore(deps: map<string, seq<OperationKey>>, es: seq<string>)
    ensures Dependents(deps, es + es) == Dependents(deps, es)
  {
    DependentsAppend(deps, es, es);
  }

  lemma {:induction false} RecordAllAppend(deps: map<string, seq<OperationKey>>, a: seq<string>, b: seq<string>, key: OperationKey)
    ensures RecordAll(deps, a + b, key) == RecordAll(RecordAll(deps, a, key), b, key)
    decreases |b|
  {
    if b == [] {
      assert a + b == a;
    } else {
      assert (a + b)[..|a + b| - 1] == a + b[..|b| - 1];
      RecordAllAppend(deps, a, b[..|b| - 1], key);
    }
  }

  /** Recording creates entries only for the entity keys recorded. */
  lemma {:induction false} RecordAllKeys(deps: map<string, seq<OperationKey>>, es: seq<string>, key: OperationKey)
    ensures RecordAll(deps, es, key).Keys == deps.Keys + (set e | e in es)
    decreases |es|
  {
    if es != [] {
      var init, last := es[..|es| - 1], es[|es| - 1];
      RecordAllKeys(deps, init, key);
      assert (set e | e in es) == (set e | e in init) + {last} by {
        assert es == init + [last];
      }
    }
  }

  /**
   * Recording only appends: the list of `e` becomes its old list followed
   * by `key` once per occurrence of `e` in `es`.
   */
  lemma {:induction false} RecordAllAt(deps: map<string, seq<OperationKey>>, es: seq<string>, key: OperationKey, e: string)
    ensures DependentsOf(RecordAll(deps, es, key), e) == DependentsOf(deps, e) + Repeat(key, Count(es, e))
    decreases |es|
  {
    if es != [] {
      var init, last := es[..|es| - 1], es[|es| - 1];
      RecordAllAt(deps, init, key, e);
      if last == e {
        assert Repeat(key, Count(es, e)) == Repeat(key, Count(init, e)) + [key];
      }
    }
  }

  lemma RecordAllAppends(deps: map<string, seq<OperationKey>>, es: seq<string>, key: OperationKey)
    ensures RecordAll(deps, es, key).Keys == deps.Keys + (set e | e in es)
    ensures forall e :: DependentsOf(RecordAll(deps, es, key), e) == DependentsOf(deps, e) + Repeat(key, Count(es, e))
  {
    RecordAllKeys(deps, es, key);
    forall e ensures DependentsOf(RecordAll(deps, es, key), e) == DependentsOf(deps, e) + Repeat(key, Count(es, e)) {
      RecordAllAt(deps, es, key, e);
    }
  }

  lemma RecordAllConsistent(c: Cache, es: seq<string>, key: OperationKey)
    requires Consistent(c) && key in c.triggers
    ensures Consistent(Cache(RecordAll(c.dependencies, es, key), c.triggers))
  {
    var deps' := RecordAll(c.dependencies, es, key);
    RecordAllAppends(c.dependencies, es, key);
    forall e, d | e in deps' && d in deps'[e] ensures d in c.triggers {
      assert deps'[e] == DependentsOf(c.dependencies, e) + Repeat(key, Count(es, e));
      RepeatOnly(key, Count(es, e));
      if d !in DependentsOf(c.dependencies, e) {
        assert d in Repeat(key, Count(es, e));
      }
    }
  }

  lemma {:induction false} RepeatOnly(key: OperationKey, n: nat)
    ensures forall d :: d in Repeat(key, n) ==> d == key
    ensures |Repeat(key, n)| == n
  {
    if n > 0 {
      RepeatOnly(key, n - 1);
    }
  }

  lemma BumpNothing(t: map<OperationKey, int>)
    ensures Bump(t, {}) == t
  {
  }

  lemma BumpCompose(t: map<OperationKey, int>, a: set<OperationKey>, b: set<OperationKey>)
    requires a !! b
    ensures Bump(Bump(t, a), b) == Bump(t, a + b)
  {
  }

  /**
   * Waking the dependents of `a`, then of `b`, marks and increments exactly
   * what waking the dependents of `a + b` in one go does.
   */
  lemma Accumulate(deps: map<string, seq<OperationKey>>, t0: map<OperationKey, int>, t1: map<OperationKey, int>, t2: map<OperationKey, int>,
                   hits: set<OperationKey>, mid: set<OperationKey>, out: set<OperationKey>, a: seq<string>, b: seq<string>)
    requires mid == hits + Dependents(deps, a) && t1 == Bump(t0, mid - hits)
    requires out == mid + Dependents(deps, b) && t2 == Bump(t1, out - mid)
    ensures out == hits + Dependents(deps, a + b)
    ensures t2 == Bump(t0, out - hits) && t2.Keys == t0.Keys
  {
    BumpCompose(t0, mid - hits, out - mid);
    assert (mid - hits) + (out - mid) == out - hits;
    DependentsAppend(deps, a, b);
  }

  /**
   * The step of the loop over the children: waking the dependents of child
   * `i` after those of the children before it wakes the dependents of the
   * first `i + 1` children; when child `i` throws, so does the whole loop.
   */
  lemma WakeChild(deps: map<string, seq<OperationKey>>, t0: map<OperationKey, int>, t1: map<OperationKey, int>, t2: map<OperationKey, int>,
                  hits: set<OperationKey>, before: set<OperationKey>, out: set<OperationKey>, data: Json, i: nat)
    requires i < Arity(data) && TrigEach(data, i).ok
    requires before == hits + Dependents(deps, TrigEach(data, i).keys) && t1 == Bump(t0, before - hits)
    requires out == before + Dependents(deps, TrigWalk(Child(data, i)).keys) && t2 == Bump(t1, out - before)
    ensures out == hits + Dependents(deps, TrigEach(data, i + 1).keys) && t2 == Bump(t0, out - hits) && t2.Keys == t0.Keys
    ensures TrigEach(data, i + 1).ok == TrigWalk(Child(data, i)).ok
    ensures !TrigWalk(Child(data, i)).ok ==> TrigEach(data, Arity(data)) == TrigEach(data, i + 1)
  {
    TrigEachStep(data, i);
    Accumulate(deps, t0, t1, t2, hits, before, out, TrigEach(data, i).keys, TrigWalk(Child(data, i)).keys);
    TrigEachPrefix(data, i + 1, Arity(data));
  }

  // ----- the stated properties of the two hooks -----

  /**
   * `processRequest` stores a watched operation's trigger, and only a
   * watched one's; it forces 'cache-first' exactly when the operation is
   * watched and its trigger value is positive, and leaves the policy alone
   * otherwise. The dependencies are not touched.
   */
  lemma RequestStoresWatchedTrigger(c: Cache, op: Operation)
    requires op.watch ==> op.trigger.Some?
    ensures Request(c, op).0.dependencies == c.dependencies
    ensures op.watch ==> Request(c, op).0.triggers == c.triggers[op.key := op.trigger.value]
    ensures !op.watch ==> Request(c, op).0.triggers == c.triggers
    ensures Request(c, op).1 == op.(requestPolicy := Request(c, op).1.requestPolicy)
    ensures op.watch && op.trigger.value > 0 ==> Request(c, op).1.requestPolicy == CacheFirst
    ensures !(op.watch && op.trigger.value > 0) ==> Request(c, op).1.requestPolicy == op.requestPolicy
    ensures Consistent(c) ==> Consistent(Request(c, op).0)
  {
  }

  /** A cache hit, or a response without truthy data, changes no trigger value. */
  lemma CacheHitWakesNobody(c: Cache, r: OperationResult)
    requires r.cacheOutcome == Some(Hit) || !Truthy(Some(r.data))
    ensures Respond(c, r).0.triggers == c.triggers
  {
  }

  /**
   * One response increments a trigger by one or leaves it; the incremented
   * ones are exactly the other operations listed against an entity key the
   * data contains, and only on fresh data. The responder's own trigger is
   * never incremented, and no trigger is added or removed.
   */
  /** A response never adds or removes a trigger, whatever the trigger table. */
  lemma ResponseKeepsTriggerKeys(c: Cache, r: OperationResult)
    ensures Respond(c, r).0.triggers.Keys == c.triggers.Keys
  {
  }

  /**
   * On a consistent cache every operation a response wakes has a trigger,
   * so the increment at `this.cache.triggers[dep].value++` never meets
   * `undefined` and the walk cannot throw there.
   */
  lemma WokenHaveTriggers(c: Cache, r: OperationResult)
    requires Consistent(c)
    ensures Woken(c, r) <= c.triggers.Keys
  {
    forall k | k in Woken(c, r)
      ensures k in c.triggers
    {
      var es := TrigWalk(r.data).keys;
      DependentsMembership(c.dependencies, es, k);
      var i :| 0 <= i < |es| && k in DependentsOf(c.dependencies, es[i]);
    }
  }

  lemma ResponseWakesEachDependentOnce(c: Cache, r: OperationResult, k: OperationKey)
    requires k in c.triggers
    ensures Respond(c, r).0.triggers.Keys == c.triggers.Keys
    ensures Respond(c, r).0.triggers[k] == c.triggers[k] || Respond(c, r).0.triggers[k] == c.triggers[k] + 1
    ensures Respond(c, r).0.triggers[k] == c.triggers[k] + 1 <==>
      IsFresh(r) && k != r.key &&
      exists i :: 0 <= i < |TrigWalk(r.data).keys| && k in DependentsOf(c.dependencies, TrigWalk(r.data).keys[i])
    ensures k == r.key ==> Respond(c, r).0.triggers[k] == c.triggers[k]
  {
    DependentsMembership(c.dependencies, TrigWalk(r.data).keys, k);
  }

  /**
   * Dependencies are recorded only for an operation with a registered
   * trigger whose value is exactly 0, and only when the data is truthy;
   * then the operation key is appended once per entity met.
   */
  lemma DependenciesOnlyOnFirstRun(c: Cache, r: OperationResult)
    ensures Respond(c, r).0.dependencies != c.dependencies ==>
      r.key in c.triggers && c.triggers[r.key] == 0 && Truthy(Some(r.data))
    ensures r.key in c.triggers && c.triggers[r.key] == 0 && Truthy(Some(r.data)) && (!IsFresh(r) || TrigWalk(r.data).ok) ==>
      Respond(c, r).0.dependencies == RecordAll(c.dependencies, SetWalk(r.data).keys, r.key)
  {
    var t := Respond(c, r).0.triggers;
    if IsFresh(r) && r.key in c.triggers {
      assert t[r.key] == c.triggers[r.key];
    }
  }

  /** An entity key that does not occur is counted zero times. */
  lemma {:induction false} CountZero(es: seq<string>, e: string)
    requires e !in es
    ensures Count(es, e) == 0
    decreases |es|
  {
    if es != [] {
      assert forall x :: x in es[..|es| - 1] ==> x in es;
      CountZero(es[..|es| - 1], e);
    }
  }

  /**
   * A response never removes or reorders a recorded dependent: every old
   * list is a prefix of the new one, whatever is appended is the
   * responder's key, and only the lists of entity keys met in the data
   * change at all.
   */
  lemma ResponseOnlyAppendsDependencies(c: Cache, r: OperationResult, e: string)
    ensures DependentsOf(c.dependencies, e) <= DependentsOf(Respond(c, r).0.dependencies, e)
    ensures forall i :: |DependentsOf(c.dependencies, e)| <= i < |DependentsOf(Respond(c, r).0.dependencies, e)| ==>
      DependentsOf(Respond(c, r).0.dependencies, e)[i] == r.key
    ensures e in Respond(c, r).0.dependencies && e !in c.dependencies ==> e in SetWalk(r.data).keys
    ensures e !in SetWalk(r.data).keys ==> DependentsOf(Respond(c, r).0.dependencies, e) == DependentsOf(c.dependencies, e)
  {
    var es := SetWalk(r.data).keys;
    RecordAllAppends(c.dependencies, es, r.key);
    RepeatOnly(r.key, Count(es, e));
    var tail := Repeat(r.key, Count(es, e));
    assert forall i :: 0 <= i < |tail| ==> tail[i] in tail;
    if e !in es {
      CountZero(es, e);
      assert DependentsOf(c.dependencies, e) + [] == DependentsOf(c.dependencies, e);
    }
  }

  /** A response whose data holds no entity changes neither table. */
  lemma EntityFreeResponseChangesNothing(c: Cache, r: OperationResult)
    requires EntityFree(r.data)
    ensures Respond(c, r).0 == c
  {
    EntityFreeMeetsNothing(r.data);
    assert Woken(c, r) == {};
    BumpNothing(c.triggers);
  }

  /** A response keeps every dependent backed by a trigger (for a request, see `RequestStoresWatchedTrigger`). */
  lemma HooksKeepConsistent(c: Cache, r: OperationResult)
    requires Consistent(c)
    ensures Consistent(Respond(c, r).0)
  {
    var t := if IsFresh(r) then Bump(c.triggers, Woken(c, r)) else c.triggers;
    assert t.Keys == c.triggers.Keys;
    assert Consistent(Cache(c.dependencies, t));
    if r.key in t {
      RecordAllConsistent(Cache(c.dependencies, t), SetWalk(r.data).keys, r.key);
    }
  }

  // ----- worked cases -----

  /** `{ __typename: typename, id }` followed by `rest`. */
  function Entity(typename: string, id: string, rest: seq<(string, Json)>): Json {
    JObj([("__typename", JStr(typename)), ("id", JStr(id))] + rest)
  }

  lemma EntityOwnKey(typename: string, id: string, rest: seq<(string, Json)>)
    requires typename != "" && id != ""
    ensures OwnKeys(Entity(typename, id, rest)) == [typename + ":" + id]
  {
    var fields := [("__typename", JStr(typename)), ("id", JStr(id))] + rest;
    assert fields[0] == ("__typename", JStr(typename)) && fields[1] == ("id", JStr(id));
    assert fields[1..][0] == ("id", JStr(id));
    assert Lookup(fields[1..], "id") == Some(JStr(id));
    assert Get(Entity(typename, id, rest), "id") == Some(JStr(id));
    assert Get(Entity(typename, id, rest), "__typename") == Some(JStr(typename));
  }

  /** The `__typename` and `id` properties themselves yield no key. */
  lemma EntityHeaderWalks(data: Json)
    requires data.JObj? && |data.fields| >= 2
    requires data.fields[0].1.JStr? && data.fields[1].1.JStr?
    ensures TrigEach(data, 2) == Done && SetEach(data, 2) == Done
  {
    assert Done.keys + Done.keys == [];
    assert TrigEach(data, 1) == Then(Done, TrigWalk(data.fields[0].1)) == Done;
    assert SetEach(data, 1) == Then(Done, SetWalk(data.fields[0].1)) == Done;
  }

  /** A flat entity yields exactly its own key in both walks. */
  lemma FlatEntityWalks(typename: string, id: string)
    requires typename != "" && id != ""
    ensures TrigWalk(Entity(typename, id, [])) == Walk([typename + ":" + id], true)
    ensures SetWalk(Entity(typename, id, [])) == Walk([typename + ":" + id], true)
  {
    var data := Entity(typename, id, []);
    EntityOwnKey(typename, id, []);
    assert data.fields == [("__typename", JStr(typename)), ("id", JStr(id))];
    EntityHeaderWalks(data);
    assert [typename + ":" + id] + [] == [typename + ":" + id];
  }

  /** An entity with one property holding `child` yields its own key, then the child's keys. */
  lemma NestedEntityWalks(typename: string, id: string, name: string, child: Json)
    requires typename != "" && id != ""
    ensures TrigWalk(child).ok ==> TrigWalk(Entity(typename, id, [(name, child)])) == Walk([typename + ":" + id] + TrigWalk(child).keys, true)
    ensures SetWalk(child).ok ==> SetWalk(Entity(typename, id, [(name, child)])) == Walk([typename + ":" + id] + SetWalk(child).keys, true)
  {
    var data := Entity(typename, id, [(name, child)]);
    EntityOwnKey(typename, id, [(name, child)]);
    assert data.fields == [("__typename", JStr(typename)), ("id", JStr(id)), (name, child)];
    EntityHeaderWalks(data);
    assert [] + TrigWalk(child).keys == TrigWalk(child).keys;
    assert [] + SetWalk(child).keys == SetWalk(child).keys;
  }

  /** A fresh response whose walk does not throw; the responder is on its first run. */
  lemma FirstRunResponds(c: Cache, r: OperationResult)
    requires IsFresh(r) && TrigWalk(r.data).ok && r.key in c.triggers && c.triggers[r.key] == 0
    ensures Respond(c, r) == (Cache(RecordAll(c.dependencies, SetWalk(r.data).keys, r.key), Bump(c.triggers, Woken(c, r))), SetWalk(r.data).ok)
  {
    assert Bump(c.triggers, Woken(c, r))[r.key] == 0;
  }

  /** The dependents of one entity key are those listed against it. */
  lemma DependentsOfOne(deps: map<string, seq<OperationKey>>, e: string)
    ensures Dependents(deps, [e]) == Elems(DependentsOf(deps, e))
  {
    assert [e][..0] == [];
  }

  /** Recording one entity key that already has a list appends to that list. */
  lemma RecordOne(deps: map<string, seq<OperationKey>>, e: string, key: OperationKey)
    requires e in deps
    ensures RecordAll(deps, [e], key) == deps[e := deps[e] + [key]]
  {
    assert [e][..0] == [];
  }

  /** Recording two distinct new entity keys gives each a list of its own. */
  lemma RecordTwoNew(deps: map<string, seq<OperationKey>>, a: string, b: string, key: OperationKey)
    requires a != b && a !in deps && b !in deps
    ensures RecordAll(deps, [a, b], key) == deps[a := [key]][b := [key]]
    ensures Dependents(deps, [a, b]) == {}
  {
    assert [a, b][..1] == [a] && [a][..0] == [];
    assert RecordAll(deps, [a], key) == deps[a := [key]];
    assert Dependents(deps, [a]) == {} by {
      assert Elems([]) == {};
    }
  }

  /** An entity holding one nested entity yields the outer key, then the inner one. */
  lemma NestedPairWalks(t1: string, i1: string, t2: string, i2: string)
    requires t1 != "" && i1 != "" && t2 != "" && i2 != ""
    ensures TrigWalk(Entity(t1, i1, [("nested", Entity(t2, i2, []))])) == Walk([t1 + ":" + i1, t2 + ":" + i2], true)
    ensures SetWalk(Entity(t1, i1, [("nested", Entity(t2, i2, []))])) == Walk([t1 + ":" + i1, t2 + ":" + i2], true)
  {
    FlatEntityWalks(t2, i2);
    NestedEntityWalks(t1, i1, "nested", Entity(t2, i2, []));
    assert [t1 + ":" + i1] + [t2 + ":" + i2] == [t1 + ":" + i1, t2 + ":" + i2];
  }

  /** A first-run response meeting two entity keys nobody depends on yet records the responder against both. */
  lemma FirstRunRecordsTwoNew(c: Cache, r: OperationResult, a: string, b: string)
    requires IsFresh(r) && TrigWalk(r.data) == Walk([a, b], true) && SetWalk(r.data) == Walk([a, b], true)
    requires a != b && a !in c.dependencies && b !in c.dependencies
    requires r.key in c.triggers && c.triggers[r.key] == 0
    ensures Respond(c, r) == (Cache(c.dependencies[a := [r.key]][b := [r.key]], c.triggers), true)
  {
    FirstRunResponds(c, r);
    RecordTwoNew(c.dependencies, a, b, r.key);
    assert Woken(c, r) == {};
    BumpNothing(c.triggers);
  }

  /**
   * A fresh response meeting one entity key wakes exactly that key's other
   * dependents and does not throw; its dependencies change only on the
   * responder's first run, by recording it against that key.
   */
  lemma OneEntityWakesListed(c: Cache, r: OperationResult, e: string)
    requires IsFresh(r) && TrigWalk(r.data) == Walk([e], true) && SetWalk(r.data) == Walk([e], true)
    ensures Respond(c, r).1
    ensures Respond(c, r).0.triggers == Bump(c.triggers, Elems(DependentsOf(c.dependencies, e)) - {r.key})
    ensures r.key in c.triggers && c.triggers[r.key] == 0 ==> Respond(c, r).0.dependencies == RecordAll(c.dependencies, [e], r.key)
    ensures !(r.key in c.triggers && c.triggers[r.key] == 0) ==> Respond(c, r).0.dependencies == c.dependencies
  {
    DependentsOfOne(c.dependencies, e);
    var t := Bump(c.triggers, Woken(c, r));
    if r.key in c.triggers {
      assert t[r.key] == c.triggers[r.key];
    }
  }

  /** A first-run response meeting only the entity its operation alone depends on: nobody is woken, the key is appended again. */
  lemma SoleDependentRecordsAgain(r: OperationResult, e: string)
    requires IsFresh(r) && TrigWalk(r.data) == Walk([e], true) && SetWalk(r.data) == Walk([e], true)
    ensures Respond(Cache(map[e := [r.key]], map[r.key := 0]), r) == (Cache(map[e := [r.key, r.key]], map[r.key := 0]), true)
  {
    var c := Cache(map[e := [r.key]], map[r.key := 0]);
    OneEntityWakesListed(c, r, e);
    assert Elems([r.key]) - {r.key} == {} by {
      assert Elems([r.key]) == {r.key};
    }
    BumpNothing(c.triggers);
    assert RecordAll(c.dependencies, [e], r.key) == map[e := [r.key, r.key]] by {
      RecordOne(c.dependencies, e, r.key);
      assert [r.key] + [r.key] == [r.key, r.key];
    }
  }

  /**
   * A first-run response for operation `k` holding an entity with a nested
   * entity (a Film with a Person, say) records `k` against both entity keys
   * and wakes nobody.
   */
  lemma FirstRunRecordsNestedEntities(k: OperationKey, t1: string, i1: string, t2: string, i2: string)
    requires t1 != "" && i1 != "" && t2 != "" && i2 != "" && t1 + ":" + i1 != t2 + ":" + i2
    ensures
      var r := OperationResult(k, Some(Miss), Entity(t1, i1, [("nested", Entity(t2, i2, []))]));
      Respond(Cache(map[], map[k := 0]), r) == (Cache(map[t1 + ":" + i1 := [k], t2 + ":" + i2 := [k]], map[k := 0]), true)
  {
    var r := OperationResult(k, Some(Miss), Entity(t1, i1, [("nested", Entity(t2, i2, []))]));
    NestedPairWalks(t1, i1, t2, i2);
    FirstRunRecordsTwoNew(Cache(map[], map[k := 0]), r, t1 + ":" + i1, t2 + ":" + i2);
  }

  /**
   * A fresh response for operation `k` holding one flat entity increments,
   * once each, exactly the operations other than `k` listed against that
   * entity's key, and evicts nothing: unless `k` is on its first run (and
   * then records itself against the key), the dependencies stay as they were.
   */
  lemma FreshResponseWakesListedDependents(c: Cache, k: OperationKey, typename: string, id: string)
    requires typename != "" && id != ""
    ensures
      var r := OperationResult(k, Some(Miss), Entity(typename, id, []));
      && Respond(c, r).1
      && Respond(c, r).0.triggers == Bump(c.triggers, Elems(DependentsOf(c.dependencies, typename + ":" + id)) - {k})
      && (k in c.triggers && c.triggers[k] == 0 ==> Respond(c, r).0.dependencies == Record(c.dependencies, typename + ":" + id, k))
      && (!(k in c.triggers && c.triggers[k] == 0) ==> Respond(c, r).0.dependencies == c.dependencies)
  {
    var r := OperationResult(k, Some(Miss), Entity(typename, id, []));
    FlatEntityWalks(typename, id);
    OneEntityWakesListed(c, r, typename + ":" + id);
    assert [typename + ":" + id][..0] == [];
  }

  /**
   * A response for operation `k` holding the one entity only `k` depends on
   * does not wake `k`; being on its first run, `k` is recorded against the
   * entity once more (duplicates accumulate).
   */
  lemma ResponderNotWoken(k: OperationKey, typename: string, id: string)
    requires typename != "" && id != ""
    ensures
      var e := typename + ":" + id;
      var r := OperationResult(k, Some(Miss), Entity(typename, id, []));
      Respond(Cache(map[e := [k]], map[k := 0]), r) == (Cache(map[e := [k, k]], map[k := 0]), true)
  {
    FlatEntityWalks(typename, id);
    SoleDependentRecordsAgain(OperationResult(k, Some(Miss), Entity(typename, id, [])), typename + ":" + id);
  }

  /** Fresh data with a `null` property makes `processResponse` throw. */
  lemma NullFieldThrows(c: Cache, key: OperationKey)
    ensures !Respond(c, OperationResult(key, Some(Miss), JObj([("film", JNull)]))).1
  {
    NullPropertyThrows([("film", JNull)], 0);
  }

  // ----- the exchange -----

  /** `QwikExchange`: the two tables are the `Cache` it was constructed with. */
  class QwikExchange {
    var dependencies: map<string, seq<OperationKey>>
    var triggers: map<OperationKey, int>

    function State(): Cache
      reads this
    {
      Cache(dependencies, triggers)
    }

    ghost predicate Valid()
      reads this
    {
      Consistent(State())
    }

    constructor (cache: Cache)
      requires Consistent(cache)
      ensures Valid() && State() == cache
    {
      dependencies := cache.dependencies;
      triggers := cache.triggers;
    }

    /** Lines 24-37. */
    method ProcessRequest(op: Operation) returns (out: Operation)
      requires Valid()
      requires op.watch ==> op.trigger.Some?
      modifies this
      ensures Valid()
      ensures (State(), out) == Request(old(State()), op)
    {
      var isWatched := op.watch;
      if isWatched {
        triggers := triggers[op.key := op.trigger.value];
      }
      out := op;
      if isWatched && op.trigger.value > 0 {
        out := out.(requestPolicy := CacheFirst);
      }
    }

    /** Lines 40-55; `ok == false` when a walk threw. */
    method ProcessResponse(r: OperationResult) returns (ok: bool)
      requires Valid()
      modifies this
      ensures Valid()
      ensures (State(), ok) == Respond(old(State()), r)
    {
      var key := r.key;
      var registered := key in triggers;
      ok := true;
      if r.cacheOutcome != Some(Hit) && Truthy(Some(r.data)) {
        var hits;
        hits, ok := TriggerDependencies(r.data, {key});
        assert hits - {key} == Woken(old(State()), r);
        if !ok {
          return;
        }
      }
      if registered {
        if triggers[key] == 0 && Truthy(Some(r.data)) {
          ok := SetDependencies(key, r.data);
        }
      }
      HooksKeepConsistent(old(State()), r);
    }

    /** Lines 62-91. */
    method SetDependencies(key: OperationKey, data: Json) returns (ok: bool)
      requires Valid() && key in triggers
      modifies this
      ensures Valid() && triggers == old(triggers)
      ensures ok == SetWalk(data).ok
      ensures dependencies == RecordAll(old(dependencies), SetWalk(data).keys, key)
      decreases data, 1
    {
      match data
      case JNull =>
        // `data.id` throws on null
        ok := false;
      case JArr(items) =>
        if |items| == 0 {
          return true;
        }
        ok := SetDependencies(key, items[0]);
        if !ok {
          return;
        }
        ghost var mid := dependencies;
        ok := SetChildDependencies(key, data);
        RecordAllAppend(old(dependencies), SetWalk(items[0]).keys, SetEach(data, |items|).keys, key);
      case JObj(_) =>
        var id, typename := Get(data, "id"), Get(data, "__typename");
        if Truthy(id) && Truthy(typename) {
          var depKey := EntityKey(typename.value, id.value);
          if depKey !in dependencies {
            dependencies := dependencies[depKey := [key]];
          } else {
            dependencies := dependencies[depKey := dependencies[depKey] + [key]];
          }
          assert dependencies == RecordAll(old(dependencies), [depKey], key);
          RecordAllConsistent(old(State()), [depKey], key);
        }
        ghost var own := dependencies;
        ok := SetChildDependencies(key, data);
        RecordAllAppend(old(dependencies), OwnKeys(data), SetEach(data, Arity(data)).keys, key);
      case _ =>
        ok := true;
    }

    /** The `for (const field of Object.keys(data))` loop of `setDependencies`. */
    method SetChildDependencies(key: OperationKey, data: Json) returns (ok: bool)
      requires Valid() && key in triggers
      modifies this
      ensures Valid() && triggers == old(triggers)
      ensures ok == SetEach(data, Arity(data)).ok
      ensures dependencies == RecordAll(old(dependencies), SetEach(data, Arity(data)).keys, key)
      decreases data, 0
    {
      ok := true;
      var i := 0;
      while i < Arity(data)
        invariant 0 <= i <= Arity(data)
        invariant Valid() && triggers == old(triggers)
        invariant SetEach(data, i).ok
        invariant dependencies == RecordAll(old(dependencies), SetEach(data, i).keys, key)
      {
        var child := if data.JArr? then data.items[i] else data.fields[i].1;
        assert child == Child(data, i);
        SetEachStep(data, i);
        ok := SetDependencies(key, child);
        RecordAllAppend(old(dependencies), SetEach(data, i).keys, SetWalk(child).keys, key);
        if !ok {
          SetEachPrefix(data, i + 1, Arity(data));
          return;
        }
        i := i + 1;
      }
    }

    /** Lines 96-129: wake the dependents of every entity in `data` not yet in `hits`. */
    method TriggerDependencies(data: Json, hits: set<OperationKey>) returns (hits': set<OperationKey>, ok: bool)
      requires Valid()
      modifies this
      ensures Valid() && dependencies == old(dependencies)
      ensures ok == TrigWalk(data).ok
      ensures hits' == hits + Dependents(dependencies, TrigWalk(data).keys)
      ensures triggers == Bump(old(triggers), hits' - hits)
      decreases data, 1
    {
      match data
      case JNull =>
        // `data.id` throws on null
        hits', ok := hits, false;
        BumpNothing(triggers);
      case JArr(items) =>
        if |items| == 0 || !IsObjectType(items[0]) {
          BumpNothing(triggers);
          return hits, true;
        }
        // for (const item of data)
        var mid;
        mid, ok := TriggerChildDependencies(data, hits);
        if !ok {
          return mid, ok;
        }
        // for (const field of Object.keys(data))
        var t1 := triggers;
        hits', ok := TriggerChildDependencies(data, mid);
        Accumulate(dependencies, old(triggers), t1, triggers, hits, mid, hits', TrigEach(data, |items|).keys, TrigEach(data, |items|).keys);
      case JObj(_) =>
        hits' := hits;
        var id, typename := Get(data, "id"), Get(data, "__typename");
        if Truthy(id) && Truthy(typename) {
          hits' := Wake(EntityKey(typename.value, id.value), hits);
        } else {
          BumpNothing(triggers);
        }
        assert hits' == hits + Dependents(dependencies, OwnKeys(data));
        var own, t1 := hits', triggers;
        hits', ok := TriggerChildDependencies(data, own);
        Accumulate(dependencies, old(triggers), t1, triggers, hits, own, hits', OwnKeys(data), TrigEach(data, Arity(data)).keys);
      case _ =>
        hits', ok := hits, true;
        BumpNothing(triggers);
    }

    /** One pass over the children of `data`, as both loops of `triggerDependencies` make. */
    method TriggerChildDependencies(data: Json, hits: set<OperationKey>) returns (hits': set<OperationKey>, ok: bool)
      requires Valid()
      modifies this
      ensures Valid() && dependencies == old(dependencies)
      ensures ok == TrigEach(data, Arity(data)).ok
      ensures hits' == hits + Dependents(dependencies, TrigEach(data, Arity(data)).keys)
      ensures triggers == Bump(old(triggers), hits' - hits)
      decreases data, 0
    {
      hits', ok := hits, true;
      BumpNothing(triggers);
      var i := 0;
      while i < Arity(data)
        invariant 0 <= i <= Arity(data)
        invariant Valid() && dependencies == old(dependencies)
        invariant TrigEach(data, i).ok
        invariant hits' == hits + Dependents(dependencies, TrigEach(data, i).keys)
        invariant triggers == Bump(old(triggers), hits' - hits)
      {
        var before, mid := hits', triggers;
        var child;
        if data.JArr? {
          child := data.items[i];
        } else {
          child := data.fields[i].1;
        }
        assert child == Child(data, i);
        hits', ok := TriggerDependencies(child, hits');
        WakeChild(dependencies, old(triggers), mid, triggers, hits, before, hits', data, i);
        if !ok {
          return;
        }
        i := i + 1;
      }
    }

    /** Lines 112-121: increment each dependent of `entity` not yet hit, and mark it hit. */
    method Wake(entity: string, hits: set<OperationKey>) returns (hits': set<OperationKey>)
      requires Valid()
      modifies this
      ensures Valid() && dependencies == old(dependencies)
      ensures hits' == hits + Dependents(dependencies, [entity])
      ensures triggers == Bump(old(triggers), hits' - hits)
    {
      hits' := hits;
      BumpNothing(triggers);
      assert [entity][..0] == [];
      if entity in dependencies {
        var deps := dependencies[entity];
        for i := 0 to |deps|
          invariant Valid() && dependencies == old(dependencies)
          invariant hits' == hits + (set d | d in deps[..i])
          invariant triggers == Bump(old(triggers), hits' - hits)
        {
          var dep := deps[i];
          assert deps[..i + 1] == deps[..i] + [dep];
          if dep !in hits' {
            hits' := hits' + {dep};
            triggers := triggers[dep := triggers[dep] + 1];
          }
        }
        assert deps[..|deps|] == deps;
      }
    }
  }
}
