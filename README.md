# qwik-urql core, modelled in Dafny

This project models three parts of the qwik-urql library, which binds the urql
GraphQL client to Qwik:

- **The dependency-tracking exchange** (`src/exchange/qwik-exchange.ts`).
  - Every watched operation registers a wake-up counter (its trigger).
  - A watched operation whose trigger is already positive is switched to the 'cache-first' request policy.
  - Each fresh response is walked for entities (objects with a truthy `id` and `__typename`, keyed `"<__typename>:<id>"`).
  - The walk increments the trigger of every other operation recorded against one of those entities.
  - On an operation's first run (its trigger is exactly 0), the operation is recorded against every entity its data contains.
- **The client caches** (`src/client/client-cache.ts` and `src/client/get-client.ts`).
  - Each render id gets one urql client, built by a factory promise that every caller shares.
  - `gc` removes a client, on the numeric cache.
  - A server-side timer sweeps entries, on the string-keyed cache.
- **The older resume exchange** (`src/exchanges/qwik-exchange.ts`).
  - It stores resumable operations with their result stores.
  - On the client, it re-executes every stored request once.
  - It forgets an entry when that operation is torn down.
  - It writes each result back into the Qwik store of its entry.

Files:

- `wrappers.dfy`: `Option`.
- `json.dfy`: a JSON value as a GraphQL result holds it.
  - Objects keep their properties in `Object.keys` order.
  - JavaScript truthiness, `typeof v === 'object'`, property lookup, and the template-literal conversion used to build entity keys.
- `entity_walk.dfy`: the two recursive walks of the exchange as pure functions.
  - `SetWalk` (`setDependencies`) and `TrigWalk` (`triggerDependencies`) give the sequence of entity keys met and whether the walk threw.
- `dependency_exchange.dfy`:
  - `processRequest` and `processResponse` as functions on a `Cache` value.
  - The lemmas about them.
  - The class `QwikExchange`, whose methods update the two tables in place and are proved equal to those functions.
- `client_entry.dfy`: the cache entry, and the two halves of `get`, before and after its `await`.
- `client_cache.dfy`, `get_client.dfy`: the two `ClientCache` classes.
  - `client_cache.dfy` adds scenarios that replay the behaviour its tests (`src/client/client-cache.spec.tsx`) state.
  - `get_client.dfy` adds the two sweep scenarios behind the entry under "## Findings".
- `resume_exchange.dfy`: the resume exchange as a class with the closure's state (`cache`, `hasResumedQueries`).

Points where the model follows the code closely:

- No entry is ever deleted from `dependencies`, not even after a wake-up, so no eviction is modelled.
  - `ResponseOnlyAppendsDependencies` proves that a response only appends.
- `typeof null === 'object'` lets `null` past the guards at `src/exchange/qwik-exchange.ts:63` and `:97`, and `data.id` then throws.
  - `Respond`'s second component is `false` when a walk threw.
  - Whatever the walk changed before throwing stays changed.
- The test at `src/exchange/qwik-exchange.spec.ts:5-17` has an operation with a trigger but no `watch`, and expects the trigger to be stored.
  - The code stores triggers only for watched operations.
  - `RequestStoresWatchedTrigger` proves what the code does.

## Model

| member | source | states |
|---|---|---|
| Json.Truthy | src/exchange/qwik-exchange.ts:45 | JavaScript truthiness of a property read, as tested at lines 45, 51, 76 and 111: `undefined`, `null`, `false`, `0` and `""` are falsy; `OwnKeysOnlyWhenTruthy` and `CacheHitWakesNobody` state what the guards built on it do |
| Json.IsObjectType | src/exchange/qwik-exchange.ts:63 | `typeof v === 'object'`, as tested at lines 63, 97 and 100: true of `null`, arrays and objects; `GuardsYieldNothing` and `NullPropertyThrows` state its consequences |
| Json.Lookup | src/exchange/qwik-exchange.ts:73-74 | a property is found exactly when the object has one of that name; the value found belongs to the first property of that name |
| Json.Get | src/exchange/qwik-exchange.ts:73-74 | the property reads `data.id` and `data.__typename` (also at lines 108-109): a named property of an object, absent on any other value; `Lookup` states what is found |
| Json.ToStr | src/exchange/qwik-exchange.ts:77 | the template-literal conversion of line 77 (and 112): strings unchanged, integers in decimal, objects as "[object Object]", arrays joined by commas; `EntityOwnKey` states the key it builds |
| EntityWalk.EntityKey | src/exchange/qwik-exchange.ts:77 | the template key `` `${__typename}:${id}` `` of lines 77 and 112, built with `ToStr`; `EntityOwnKey` states the key of an entity with string `__typename` and `id` |
| EntityWalk.OwnKeys | src/exchange/qwik-exchange.ts:73-77 | the entity key an object contributes itself: `` `${__typename}:${id}` `` when both are truthy, nothing otherwise; its properties are stated by `OwnKeysOnlyWhenTruthy` |
| EntityWalk.SetWalk | src/exchange/qwik-exchange.ts:62-91 | the entity keys `setDependencies` meets, in order, and whether it threw; `GuardsYieldNothing`, `SetWalkVisitsFirstElementTwice`, `EntityFreeMeetsNothing` and `NullPropertyThrows` state its properties, and `QwikExchange.SetDependencies` is proved against it |
| EntityWalk.SetEach | src/exchange/qwik-exchange.ts:86-90 | the same for the loop over `Object.keys(data)`, stopping at the first child that throws; `SetEachPrefix` states its properties |
| EntityWalk.TrigWalk | src/exchange/qwik-exchange.ts:96-129 | the entity keys `triggerDependencies` meets, in order, and whether it threw; `GuardsYieldNothing`, `TrigWalkVisitsEveryElementTwice`, `EntityFreeMeetsNothing` and `NullPropertyThrows` state its properties, and `QwikExchange.TriggerDependencies` is proved against it |
| EntityWalk.TrigEach | src/exchange/qwik-exchange.ts:124-128 | the same for the loop over `Object.keys(data)`; `TrigEachPrefix` and `ChildThrowStopsEach` state its properties |
| EntityWalk.OwnKeysOnlyWhenTruthy | src/exchange/qwik-exchange.ts:73-77 | a value yields an entity key exactly when it is an object with truthy `id` and `__typename`; the key is `` `${__typename}:${id}` ``; at most one key per object |
| EntityWalk.GuardsYieldNothing | src/exchange/qwik-exchange.ts:63-68 | a non-object value and an empty array yield nothing in either walk; when triggering, an array whose element 0 is not of type 'object' yields nothing |
| EntityWalk.SetEachPrefix | src/exchange/qwik-exchange.ts:86-90 | walking the first m properties meets a prefix of what walking the first n meets; after a property's walk throws, later properties add nothing |
| EntityWalk.TrigEachPrefix | src/exchange/qwik-exchange.ts:124-128 | the same prefix and stop-on-throw facts for the triggering walk |
| EntityWalk.SetWalkVisitsFirstElementTwice | src/exchange/qwik-exchange.ts:65-71 | `setDependencies` on a non-empty array meets element 0's entities twice before the other elements' entities |
| EntityWalk.TrigWalkVisitsEveryElementTwice | src/exchange/qwik-exchange.ts:99-106 | `triggerDependencies` on an array whose element 0 is an object walks all elements twice: in the `for...of` loop, then again through `Object.keys` |
| EntityWalk.EntityFreeMeetsNothing | src/exchange/qwik-exchange.ts:62-129 | data that contains no entity yields no entity key in either walk |
| EntityWalk.EachEntityFreeMeetsNothing | src/exchange/qwik-exchange.ts:86-90 | the children of entity-free data yield no entity key in either walk |
| EntityWalk.ChildThrowStopsEach | src/exchange/qwik-exchange.ts:124-128 | when the walk of one child throws, the walk over all the children throws |
| EntityWalk.NullPropertyThrows | src/exchange/qwik-exchange.ts:97-108 | an object with a `null` property makes both walks throw: `null` passes the `typeof` guard and `null.id` throws |
| DependencyExchange.Consistent | src/exchange/qwik-exchange.ts:4-10 | on the `Cache` record of lines 4-10 (`dependencies`, `triggers`): every operation listed as a dependent has a trigger, which line 118 relies on; the class keeps it as its invariant, and `HooksKeepConsistent`, `RecordAllConsistent` and `WokenHaveTriggers` state what preserves it and what it guarantees |
| DependencyExchange.Record | src/exchange/qwik-exchange.ts:79-83 | record one dependent: a new list `[key]` when the entity key has none, else the old list with `key` appended; `RecordAllAt` states its effect |
| DependencyExchange.RecordAll | src/exchange/qwik-exchange.ts:79-83 | the recording of lines 79-83 done once per entity key a walk meets, in order; `RecordAllKeys`, `RecordAllAt`, `RecordAllAppends` and `RecordAllAppend` state its properties, and `QwikExchange.SetDependencies` is proved against it |
| DependencyExchange.Dependents | src/exchange/qwik-exchange.ts:112-117 | the operations listed against any entity key met, an absent list counting as none; `DependentsMembership`, `DependentsAppend` and `RepeatedVisitsWakeNoMore` state its properties |
| DependencyExchange.Bump | src/exchange/qwik-exchange.ts:118 | the `value++` of line 118 applied once to each woken operation that has a trigger; `BumpNothing` and `BumpCompose` state its properties |
| DependencyExchange.IsFresh | src/exchange/qwik-exchange.ts:45 | the test of line 45: the cache outcome is not 'hit' and `data` is truthy; `CacheHitWakesNobody` states its consequence |
| DependencyExchange.WokenHaveTriggers | src/exchange/qwik-exchange.ts:112-118 | on a consistent cache every operation a response wakes has a trigger, so line 118 never increments through `undefined` |
| DependencyExchange.ResponseKeepsTriggerKeys | src/exchange/qwik-exchange.ts:40-55 | a response neither adds nor removes a trigger, for any trigger table |
| DependencyExchange.DependentsAppend | src/exchange/qwik-exchange.ts:112-121 | the operations woken by two runs of entities are the union of those woken by each run |
| DependencyExchange.DependentsMembership | src/exchange/qwik-exchange.ts:112-121 | an operation is woken exactly when it is listed against some entity key met |
| DependencyExchange.RepeatedVisitsWakeNoMore | src/exchange/qwik-exchange.ts:115-118 | meeting the same entities twice wakes no operation beyond those woken once; the `hits` set absorbs the repeats |
| DependencyExchange.RecordAllAppend | src/exchange/qwik-exchange.ts:79-83 | recording two runs of entity keys equals recording the first, then the second |
| DependencyExchange.RecordAllKeys | src/exchange/qwik-exchange.ts:79-80 | recording creates entries exactly for the entity keys met, and keeps every existing one |
| DependencyExchange.RecordAllAt | src/exchange/qwik-exchange.ts:79-83 | an entity's list becomes its old list followed by the operation key once per time the entity was met |
| DependencyExchange.RecordAllAppends | src/exchange/qwik-exchange.ts:79-83 | the two facts above, for every entity key at once |
| DependencyExchange.RecordAllConsistent | src/exchange/qwik-exchange.ts:51-53 | recording an operation that has a trigger keeps every listed dependent backed by a trigger |
| DependencyExchange.RepeatOnly | src/exchange/qwik-exchange.ts:82 | the appended tail consists of the one operation key, n times |
| DependencyExchange.BumpNothing | src/exchange/qwik-exchange.ts:118 | incrementing no trigger leaves the triggers as they were |
| DependencyExchange.BumpCompose | src/exchange/qwik-exchange.ts:115-119 | incrementing two disjoint groups one after the other equals incrementing their union once |
| DependencyExchange.Accumulate | src/exchange/qwik-exchange.ts:115-119 | waking the dependents of one run of entity keys, then of another, marks and increments exactly what waking them for both runs at once does |
| DependencyExchange.WakeChild | src/exchange/qwik-exchange.ts:126-128 | one more child of the loop wakes the dependents of the first i + 1 children; when that child throws, the whole loop throws there |
| DependencyExchange.Request | src/exchange/qwik-exchange.ts:24-37 | `processRequest` on the two tables: the new tables and the operation sent on; `RequestStoresWatchedTrigger` states its properties |
| DependencyExchange.Woken | src/exchange/qwik-exchange.ts:44-47 | the operations a response wakes: on fresh truthy data, the dependents of the entity keys `TrigWalk` meets, other than the responder; `ResponseWakesEachDependentOnce` states its properties |
| DependencyExchange.Respond | src/exchange/qwik-exchange.ts:40-55 | `processResponse` on the two tables, with whether it ran without throwing; `CacheHitWakesNobody`, `ResponseWakesEachDependentOnce`, `DependenciesOnlyOnFirstRun`, `ResponseOnlyAppendsDependencies` and `HooksKeepConsistent` state its properties |
| DependencyExchange.RequestStoresWatchedTrigger | src/exchange/qwik-exchange.ts:24-37 | a watched operation's trigger is stored and an unwatched one's is not; 'cache-first' is forced exactly when watched with a positive trigger value; nothing else in the operation changes; dependencies are untouched |
| DependencyExchange.CacheHitWakesNobody | src/exchange/qwik-exchange.ts:45-47 | a cache hit, or a result without truthy data, changes no trigger |
| DependencyExchange.ResponseWakesEachDependentOnce | src/exchange/qwik-exchange.ts:40-47 | one response raises each trigger by 0 or 1, and by 1 exactly when the data is fresh and the operation is another one, listed against an entity key met; no trigger appears or disappears; the responder's own trigger never moves |
| DependencyExchange.DependenciesOnlyOnFirstRun | src/exchange/qwik-exchange.ts:49-54 | dependencies change only for an operation with a trigger of value 0 and truthy data; then (when the trigger walk did not throw) the dependencies are the old ones with the operation recorded against every entity key met |
| DependencyExchange.ResponseOnlyAppendsDependencies | src/exchange/qwik-exchange.ts:79-83 | no recorded dependent is removed or reordered; whatever is appended is the responder's key; new entries exist only for entity keys in the data; the list of an entity key not in the data is unchanged |
| DependencyExchange.EntityFreeResponseChangesNothing | src/exchange/qwik-exchange.ts:40-55 | a response whose data holds no entity leaves both tables as they were, thrown or not |
| DependencyExchange.HooksKeepConsistent | src/exchange/qwik-exchange.ts:40-55 | a response keeps every listed dependent backed by a trigger, so the increment at line 118 never meets `undefined` |
| DependencyExchange.RecordTwoNew | src/exchange/qwik-exchange.ts:79-80 | recording against two distinct new entity keys creates a one-element list for each, and nobody depends on them yet |
| DependencyExchange.FirstRunRecordsTwoNew | src/exchange/qwik-exchange.ts:49-54 | a first-run response meeting two new entity keys records the responder against both and leaves the triggers alone |
| DependencyExchange.OneEntityWakesListed | src/exchange/qwik-exchange.ts:44-54 | a fresh response meeting one entity key does not throw, increments exactly that key's other dependents, and changes the dependencies only on the responder's first run, by recording it against that key |
| DependencyExchange.SoleDependentRecordsAgain | src/exchange/qwik-exchange.ts:44-54 | a first-run response meeting only the entity its operation alone depends on wakes nobody and appends the key again |
| DependencyExchange.EntityOwnKey | src/exchange/qwik-exchange.ts:76-77 | `{__typename: t, id: i, ...}` with non-empty strings yields the key `t:i` |
| DependencyExchange.EntityHeaderWalks | src/exchange/qwik-exchange.ts:86-90 | the string properties `__typename` and `id` yield nothing when walked |
| DependencyExchange.FlatEntityWalks | src/exchange/qwik-exchange.ts:73-90 | a flat entity yields exactly its own key in both walks |
| DependencyExchange.NestedEntityWalks | src/exchange/qwik-exchange.ts:73-90 | an entity with one property yields its own key, then the property's keys |
| DependencyExchange.NestedPairWalks | src/exchange/qwik-exchange.ts:73-90 | an entity holding one nested entity yields the outer key, then the inner one, in both walks |
| DependencyExchange.FirstRunRecordsNestedEntities | src/exchange/qwik-exchange.ts:49-54 | for any two distinct entity keys, a first-run response holding an entity with a nested entity (a Film with a Person) records the operation against both keys and wakes nobody |
| DependencyExchange.FreshResponseWakesListedDependents | src/exchange/qwik-exchange.ts:44-47 | for any operation, with or without a trigger: a fresh response holding one flat entity does not throw and increments exactly the other operations listed against that entity's key, once each; the dependencies stay as they were, except on the responder's first run, which records it against that key |
| DependencyExchange.ResponderNotWoken | src/exchange/qwik-exchange.ts:46 | an operation that alone depends on an entity is not woken by its own response holding it; on its first run its key is appended again, so duplicates accumulate |
| DependencyExchange.NullFieldThrows | src/exchange/qwik-exchange.ts:97-108 | fresh data with a `null` property makes `processResponse` throw |
| DependencyExchange.QwikExchange.constructor | src/exchange/qwik-exchange.ts:17 | the exchange starts out on the tables it is given |
| DependencyExchange.QwikExchange.ProcessRequest | src/exchange/qwik-exchange.ts:24-37 | the new tables and the outgoing operation are those of `Request` on the old tables |
| DependencyExchange.QwikExchange.ProcessResponse | src/exchange/qwik-exchange.ts:40-55 | the new tables and the throw flag are those of `Respond` on the old tables |
| DependencyExchange.QwikExchange.SetDependencies | src/exchange/qwik-exchange.ts:62-91 | the dependencies become the old ones with the key recorded against the entity keys of `SetWalk`, in order; triggers are untouched; `ok` is whether the walk did not throw |
| DependencyExchange.QwikExchange.SetChildDependencies | src/exchange/qwik-exchange.ts:86-90 | the same, for the loop over `Object.keys(data)` |
| DependencyExchange.QwikExchange.TriggerDependencies | src/exchange/qwik-exchange.ts:96-129 | `hits` grows by the dependents of the entity keys of `TrigWalk`; exactly the new hits are incremented by one; dependencies are untouched |
| DependencyExchange.QwikExchange.TriggerChildDependencies | src/exchange/qwik-exchange.ts:103-105 | the same, for one pass over the elements or properties |
| DependencyExchange.QwikExchange.Wake | src/exchange/qwik-exchange.ts:112-121 | each dependent of one entity not yet hit is marked hit and incremented once |
| ClientEntry.Entry.constructor | src/client/client-cache.ts:42-45 | a new entry holds the factory, no client, and the given expiry |
| ClientEntry.BeginGet | src/client/client-cache.ts:48-54 | `get` returns a stored client at once; otherwise it awaits the stored factory; with neither it throws "Client factory not found"; it throws exactly when the entry holds neither |
| ClientEntry.FinishGet | src/client/client-cache.ts:56-60 | after the await, the entry holds the client the promise settles to, no factory, and its expiry unchanged |
| ClientCacheById.ClientCache.constructor | src/client/client-cache.ts:19 | the cache starts out empty |
| ClientCacheById.ClientCache.Has | src/client/client-cache.ts:63-65 | true exactly when an entry exists for the id |
| ClientCacheById.ClientCache.Set | src/client/client-cache.ts:41-46 | the id gets a new entry holding the factory, no client, expiring at now + 1000; other entries are untouched |
| ClientCacheById.ClientCache.Gc | src/client/client-cache.ts:37-39 | exactly the id's entry is removed |
| ClientCacheById.ClientCache.Get | src/client/client-cache.ts:48-54 | a missing entry throws; otherwise the stored client is returned or the stored factory awaited |
| ClientCacheById.ClientCache.GetClient | src/client/client-cache.ts:21-34 | the factory is called exactly when the id has no entry; an existing entry is kept as it is; afterwards `get` never throws |
| ClientCacheById.SameIdSharesOneClient | src/client/client-cache.spec.tsx:31-46 | concurrent and later calls for one id call the factory once and all get the same client |
| ClientCacheById.DistinctIdsGetOwnClients | src/client/client-cache.spec.tsx:14-29 | two ids call the factory once each and get the clients of their own calls |
| ClientCacheById.GcForgetsOnlyThatId | src/client/client-cache.spec.tsx:48-66 | after `gc(1)`, id 1 is gone, id 2 remains, and the next call for id 1 calls the factory again |
| GetClient.ClientCache.constructor | src/client/get-client.ts:20-22 | the cache starts out empty |
| GetClient.ClientCache.Has | src/client/get-client.ts:58-60 | true exactly when an entry exists for the id |
| GetClient.ClientCache.Set | src/client/get-client.ts:36-41 | the id gets a new entry holding the factory, no client, expiring at now + 1000; other entries are untouched |
| GetClient.ClientCache.Get | src/client/get-client.ts:43-49 | a missing entry throws; otherwise the stored client is returned or the stored factory awaited |
| GetClient.ClientCache.Sweep | src/client/get-client.ts:26-31 | as written, one pass deletes exactly the entries with `now < expires` and keeps the others unchanged |
| GetClient.ClientCache.SweepExpired | src/client/get-client.ts:23 | the pass the comment describes deletes exactly the entries whose expiry has passed and keeps the others unchanged |
| GetClient.ClientCache.GetClient | src/client/get-client.ts:65-78 | the factory is called exactly when `has(id)` is false; an existing entry is kept as it is; afterwards `get` never throws |
| GetClient.SweepKeepsOnlyExpired | src/client/get-client.ts:26-31 | as written, a sweep in an entry's first second deletes it, while an entry past its second survives sweeps at now + 1000 and now + 100000 (`Sweep`'s own contract keeps every entry with `expires <= now` at any tick) |
| GetClient.SweepExpiredKeepsYoung | src/client/get-client.ts:23 | the intended sweep keeps an entry in its first second and deletes it once the second has passed |
| ResumeExchange.Admit | src/exchanges/qwik-exchange.ts:37-50 | the bookkeeping of `processIncomingOperation`: a new resumable operation is stored without `context.fetch`, and a teardown on the client forgets its entry; `AdmitNeverOverwrites`, `AdmitStoresResumable` and `AdmitTeardownOnlyOnClient` state its properties |
| ResumeExchange.AdmitNeverOverwrites | src/exchanges/qwik-exchange.ts:38-50 | an existing entry is never overwritten; only the operation's own key can gain or lose an entry |
| ResumeExchange.AdmitStoresResumable | src/exchanges/qwik-exchange.ts:38-45 | a new entry appears exactly for a resumable operation whose key was absent (and that is not torn down at once on the client); it holds the operation without `context.fetch`, and that operation's store |
| ResumeExchange.AdmitTeardownOnlyOnClient | src/exchanges/qwik-exchange.ts:47-50 | an entry disappears exactly for a teardown on the client; on the server no entry ever disappears |
| ResumeExchange.QwikResumeExchange.constructor | src/exchanges/qwik-exchange.ts:16-17 | the exchange starts on the given cache with the flag unset and nothing resumed |
| ResumeExchange.QwikResumeExchange.ProcessIncomingOperation | src/exchanges/qwik-exchange.ts:21-51 | on the client, the first operation sets the flag and resumes every stored key exactly once; later operations and every operation on the server resume nothing; the cache and the forwarded operation are those of `Admit` |
| ResumeExchange.QwikResumeExchange.InjectResult | src/exchanges/qwik-exchange.ts:57-73 | a result with an entry loses `context.fetch` and overwrites exactly the six result fields of that entry's store, keeping its other properties; a result without an entry changes nothing; an entry without a store throws |
| ResumeExchange.ResumesAtMostOnce | src/exchanges/qwik-exchange.ts:22-35 | on the client, the first operation resumes each stored key once and the second resumes nothing more |
| ResumeExchange.ServerNeverResumes | src/exchanges/qwik-exchange.ts:23 | on the server nothing is ever resumed |

## Left out

- Aliasing of trigger objects. A trigger is the integer value of `context.trigger`, not a shared `{ value }` cell.
  - Two operation keys holding the same cell, and a hook writing the cell, are not modelled.
  - Trigger values and numbers in data are integers, not floating point.
- Object key order. `Object.keys` lists integer-like property names first. The model visits properties in the stored order, and assumes property names are distinct.
- The wonka pipeline. The `run` method and `qwikExchange` factory wiring `tap` into the stream are not modelled; the hooks are called directly.
- `client.executeRequestOperation` and its subscription. The resume exchange records the resumed keys instead.
  - A resumed operation re-entering `processIncomingOperation` is not modelled.
- The timer and clock. `setInterval` and `Date.now()` are parameters: each `Sweep` call is one timer tick at time `now`.
  - The timer is set up only on the server.
- Promises. A promise is modelled by the client it settles to.
  - `share`/`toPromise` wrapping, promise rejection, and interleaving beyond the two halves of `get` are not modelled.
- The factory's arguments. `authTokens` and `qwikStore`, passed to the factory QRL, are not modelled; the factory call is represented by the promise it returns.
- Operations and results are values. A `delete` of `context.fetch` on the caller's object shows up only in the operation the exchange returns or stores.
- The remaining fields of operations and results. Only the fields the exchanges read or write are kept.
- Hooks, components, the provider, and the example application are not part of this model.
- GetClient.ClientCache.Has: the cache is a map with no inherited entries. In the source, `cache` is a plain `{}`, so `has` is true for an id naming an `Object.prototype` property ("constructor", "toString", "__proto__") on an empty cache.
- GetClient.ClientCache.GetClient: for such an id the factory is not called, because `has` is true. `get` then finds the inherited value, which holds neither client nor factory, and throws "Client factory not found". The model treats every id as an own key. `set("__proto__", …)` replaces the prototype instead of adding an entry, and this is not modelled either.
- GetClient.ClientCache.Get: for an id naming an `Object.prototype` property, the source throws "Client factory not found" instead of failing on a missing entry; the model has only the missing-entry case.
- DependencyExchange.Respond: on a cache where a listed dependent has no trigger, the source throws a TypeError at `src/exchange/qwik-exchange.ts:118`, and `Respond` does not: it skips that dependent and reports no throw. The model is exact only on a consistent cache. That is the case `QwikExchange` keeps as its invariant, and `WokenHaveTriggers` shows the throw cannot arise there.
- DependencyExchange.Woken: counts a dependent that has no trigger as woken. The source throws on it instead, as described for `Respond`.
- DependencyExchange.OneEntityWakesListed: its "does not throw" is, like `Respond`'s flag, true of the source only when the woken dependents have triggers (always on a consistent cache).
- DependencyExchange.FreshResponseWakesListedDependents: the same limit as `OneEntityWakesListed`.
- DependencyExchange.ResponseWakesEachDependentOnce: on an inconsistent cache the source throws at line 118 before incrementing every dependent; the lemma describes the model, which increments them all.
- DependencyExchange.DependenciesOnlyOnFirstRun: on an inconsistent cache the source throws at line 118 before `setDependencies` runs; the lemma describes the model, which then still records.
- DependencyExchange.QwikExchange.ProcessRequest: requires a trigger on a watched operation. The source reads `context.trigger.value`, which would throw without one.

## Findings

| source | as written | input that shows it | evidently intended | confidence | as-written member | corrected member |
|---|---|---|---|---|---|---|
| src/client/get-client.ts:28 | the sweep deletes an entry when `Date.now() < expires`, so it removes clients younger than a second and keeps every expired one forever | an entry set at time t and swept at t + 1 is deleted; one set at t and swept at t + 1000 and again at t + 100000 is kept | delete when `expires < Date.now()`, as the comment at line 23 says | not executed | GetClient.SweepKeepsOnlyExpired | GetClient.SweepExpiredKeepsYoung |
