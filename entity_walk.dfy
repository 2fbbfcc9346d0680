/**
 * The two recursive walks of `QwikExchange` over response data
 * (src/exchange/qwik-exchange.ts), as functions: which entity keys a walk
 * meets, in visiting order, and whether it ran to the end. A walk stops
 * with an exception when it reaches `null`: `typeof null` is 'object', so
 * the guard lets it through and `data.id` then throws.
 */
module EntityWalk {
  import opened Wrappers
  import opened Json

  /** The entity keys met, in order, and `ok == false` when the walk threw after meeting them. */
  datatype Walk = Walk(keys: seq<string>, ok: bool)

  /** A walk that meets nothing and returns normally. */
  const Done := Walk([], true)

  /** A walk that throws before meeting anything. */
  const Crash := Walk([], false)

  /** Run `a`, then `b` unless `a` threw. */
  function Then(a: Walk, b: Walk): Walk {
    if a.ok then Walk(a.keys + b.keys, b.ok) else a
  }

  /** `${__typename}:${id}` */
  function EntityKey(typename: Json, id: Json): string {
    ToStr(typename) + ":" + ToStr(id)
  }

  /** The key of the entity `j` stands for: none unless both `id` and `__typename` are truthy. */
  function OwnKeys(j: Json): seq<string> {
    var id, typename := Get(j, "id"), Get(j, "__typename");
    if Truthy(id) && Truthy(typename) then [EntityKey(typename.value, id.value)] else []
  }

  /**
   * `setDependencies`: a non-object is skipped; an empty array stops; a
   * non-empty array first walks its element 0 and then, through
   * `Object.keys`, every element again (element 0 included); an object
   * records its own key and then walks every property value.
   */
  function SetWalk(j: Json): Walk
    decreases j, 1
  {
    match j
    case JNull => Crash
    case JArr(items) => if |items| == 0 then Done else Then(SetWalk(items[0]), SetEach(j, |items|))
    case JObj(_) => Then(Walk(OwnKeys(j), true), SetEach(j, Arity(j)))
    case _ => Done
  }

  /** `setDependencies` on the first `n` children of `j`, in order. */
  function SetEach(j: Json, n: nat): Walk
    requires n <= Arity(j)
    decreases j, 0, n
  {
    if n == 0 then Done
    else Then(SetEach(j, n - 1), if j.JArr? then SetWalk(j.items[n - 1]) else SetWalk(j.fields[n - 1].1))
  }

  /**
   * `triggerDependencies`: a non-object is skipped; an array stops when it
   * is empty or when its element 0 is not of type 'object', and otherwise
   * walks all its elements twice (the `for...of` loop, then `Object.keys`);
   * an object meets its own key and then walks every property value.
   */
  function TrigWalk(j: Json): Walk
    decreases j, 1
  {
    match j
    case JNull => Crash
    case JArr(items) =>
      if |items| == 0 || !IsObjectType(items[0]) then Done
      else Then(TrigEach(j, |items|), TrigEach(j, |items|))
    case JObj(_) => Then(Walk(OwnKeys(j), true), TrigEach(j, Arity(j)))
    case _ => Done
  }

  /** `triggerDependencies` on the first `n` children of `j`, in order. */
  function TrigEach(j: Json, n: nat): Walk
    requires n <= Arity(j)
    decreases j, 0, n
  {
    if n == 0 then Done
    else Then(TrigEach(j, n - 1), if j.JArr? then TrigWalk(j.items[n - 1]) else TrigWalk(j.fields[n - 1].1))
  }

  /** One more child extends the walk over the children by that child's walk. */
  lemma SetEachStep(j: Json, i: nat)
    requires i < Arity(j)
    ensures SetEach(j, i + 1) == Then(SetEach(j, i), SetWalk(Child(j, i)))
  {
  }

  /** As `SetEachStep`, for the triggering walk. */
  lemma TrigEachStep(j: Json, i: nat)
    requires i < Arity(j)
    ensures TrigEach(j, i + 1) == Then(TrigEach(j, i), TrigWalk(Child(j, i)))
  {
  }

  /** No object anywhere in `j` has both a truthy `id` and a truthy `__typename`. */
  ghost predicate EntityFree(j: Json)
    decreases j
  {
    match j
    case JArr(items) => forall i :: 0 <= i < |items| ==> EntityFree(items[i])
    case JObj(fields) => OwnKeys(j) == [] && forall i :: 0 <= i < |fields| ==> EntityFree(fields[i].1)
    case _ => true
  }

  /** A key is formed only from an object whose `id` and `__typename` are both truthy. */
  lemma OwnKeysOnlyWhenTruthy(j: Json)
    ensures |OwnKeys(j)| <= 1
    ensures OwnKeys(j) != [] <==> j.JObj? && Truthy(Get(j, "id")) && Truthy(Get(j, "__typename"))
    ensures OwnKeys(j) != [] ==> OwnKeys(j)[0] == ToStr(Get(j, "__typename").value) + ":" + ToStr(Get(j, "id").value)
  {
  }

  /**
   * Values that are not of type 'object' yield nothing in both walks, an
   * empty array yields nothing in both, and an array whose element 0 is not
   * of type 'object' yields nothing when triggering.
   */
  lemma GuardsYieldNothing(j: Json)
    ensures !IsObjectType(j) ==> SetWalk(j) == Done && TrigWalk(j) == Done
    ensures j == JArr([]) ==> SetWalk(j) == Done && TrigWalk(j) == Done
    ensures j.JArr? && |j.items| > 0 && !IsObjectType(j.items[0]) ==> TrigWalk(j) == Done
  {
  }

  /** Walking fewer children meets a prefix of the keys; once a child throws, later children change nothing. */
  lemma {:induction false} SetEachPrefix(j: Json, m: nat, n: nat)
    requires m <= n <= Arity(j)
    ensures SetEach(j, m).keys <= SetEach(j, n).keys
    ensures !SetEach(j, m).ok ==> SetEach(j, n) == SetEach(j, m)
    decreases n
  {
    if m < n {
      SetEachPrefix(j, m, n - 1);
    }
  }

  /** As `SetEachPrefix`, for the triggering walk. */
  lemma {:induction false} TrigEachPrefix(j: Json, m: nat, n: nat)
    requires m <= n <= Arity(j)
    ensures TrigEach(j, m).keys <= TrigEach(j, n).keys
    ensures !TrigEach(j, m).ok ==> TrigEach(j, n) == TrigEach(j, m)
    decreases n
  {
    if m < n {
      TrigEachPrefix(j, m, n - 1);
    }
  }

  /**
   * `setDependencies` visits element 0 of a non-empty array twice: the keys
   * it meets there come first, twice over.
   */
  lemma SetWalkVisitsFirstElementTwice(items: seq<Json>)
    requires |items| > 0 && SetWalk(items[0]).ok
    ensures SetWalk(items[0]).keys + SetWalk(items[0]).keys <= SetWalk(JArr(items)).keys
    ensures |items| == 1 ==> SetWalk(JArr(items)) == Then(SetWalk(items[0]), SetWalk(items[0]))
  {
    var j := JArr(items);
    SetEachPrefix(j, 1, |items|);
  }

  /**
   * `triggerDependencies` visits every element of an array whose element 0
   * is of type 'object' twice: once in the `for...of` loop, then again
   * through `Object.keys`.
   */
  lemma TrigWalkVisitsEveryElementTwice(items: seq<Json>)
    requires |items| > 0 && IsObjectType(items[0])
    ensures TrigEach(JArr(items), |items|).ok ==>
      TrigWalk(JArr(items)).keys == TrigEach(JArr(items), |items|).keys + TrigEach(JArr(items), |items|).keys
    ensures |items| == 1 ==> TrigWalk(JArr(items)) == Then(TrigWalk(items[0]), TrigWalk(items[0]))
  {
    if |items| == 1 {
      var w := TrigWalk(items[0]);
      assert [] + w.keys == w.keys;
      assert TrigEach(JArr(items), 1) == w;
    }
  }

  /** A value without any entity in it yields no key in either walk. */
  lemma {:induction false} EntityFreeMeetsNothing(j: Json)
    requires EntityFree(j)
    ensures SetWalk(j).keys == [] && TrigWalk(j).keys == []
    decreases j, 1
  {
    match j
    case JArr(items) =>
      if |items| > 0 {
        EntityFreeMeetsNothing(items[0]);
        EachEntityFreeMeetsNothing(j, |items|);
      }
    case JObj(_) =>
      EachEntityFreeMeetsNothing(j, Arity(j));
    case _ =>
  }

  lemma {:induction false} EachEntityFreeMeetsNothing(j: Json, n: nat)
    requires n <= Arity(j) && EntityFree(j)
    ensures SetEach(j, n).keys == [] && TrigEach(j, n).keys == []
    decreases j, 0, n
  {
    if n > 0 {
      EachEntityFreeMeetsNothing(j, n - 1);
      if j.JArr? {
        EntityFreeMeetsNothing(j.items[n - 1]);
      } else {
        EntityFreeMeetsNothing(j.fields[n - 1].1);
      }
    }
  }

  /** When one child's walk throws, walking the children throws too. */
  lemma {:induction false} ChildThrowStopsEach(j: Json, i: nat, n: nat)
    requires i < n <= Arity(j)
    ensures !SetWalk(Child(j, i)).ok ==> !SetEach(j, n).ok
    ensures !TrigWalk(Child(j, i)).ok ==> !TrigEach(j, n).ok
    decreases n
  {
    if i < n - 1 {
      ChildThrowStopsEach(j, i, n - 1);
    }
  }

  /** An object with a `null` property makes both walks throw: `null` is not skipped. */
  lemma NullPropertyThrows(fields: seq<(string, Json)>, i: nat)
    requires i < |fields| && fields[i].1 == JNull
    ensures !SetWalk(JObj(fields)).ok && !TrigWalk(JObj(fields)).ok
  {
    ChildThrowStopsEach(JObj(fields), i, |fields|);
  }
}
