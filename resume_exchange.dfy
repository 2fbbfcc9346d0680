/**
 * The older resume exchange of src/exchanges/qwik-exchange.ts. It keeps,
 * per operation key, the request of a resumable operation and the Qwik
 * store its result is written into; on the client it re-executes the
 * stored requests once, and forgets an entry when its operation is torn
 * down. `isServer` is a constant of the exchange; instead of calling
 * `client.executeRequestOperation`, the exchange records which keys it
 * resumed.
 */
module ResumeExchange {
  import opened Wrappers
  import opened Json

  type OperationKey = int

  datatype OperationKind = Query | Mutation | Subscription | Teardown

  /** The `context.fetch` override, which cannot be serialised. */
  datatype Fetch = Fetch(serial: nat)

  /** The serialisable shape of an urql `CombinedError`. */
  datatype CombinedError = CombinedError(name: string, message: string)

  /**
   * The parts of an operation this exchange reads or writes: its key and
   * kind, `context.resume`, `context.fetch` and `context.store`.
   */
  datatype Operation = Operation(key: OperationKey, kind: OperationKind, resume: bool, fetch: Option<Fetch>, store: ResponseStore?)

  /** The Qwik store a hook hands over as `context.store`; the exchange writes results into it. */
  class ResponseStore {
    var data: Option<Json>
    var error: Option<CombinedError>
    var extensions: Option<Json>
    var hasNext: Option<bool>
    var operation: Option<Operation>
    var stale: Option<bool>
    /** Any other properties the store holds. */
    var rest: map<string, Json>

    constructor (rest: map<string, Json>)
      ensures data == None && error == None && extensions == None && hasNext == None
      ensures operation == None && stale == None && this.rest == rest
    {
      data, error, extensions, hasNext, operation, stale := None, None, None, None, None, None;
      this.rest := rest;
    }
  }

  datatype OperationResult = OperationResult(
    operation: Operation,
    data: Option<Json>,
    error: Option<CombinedError>,
    extensions: Option<Json>,
    hasNext: bool,
    stale: Option<bool>)

  /** An entry of `QwikExchangeCache`. */
  datatype Stored = Stored(request: Operation, response: ResponseStore?)

  predicate NoDuplicates<T(==)>(s: seq<T>) {
    forall i, j :: 0 <= i < j < |s| ==> s[i] != s[j]
  }

  /**
   * The bookkeeping of `processIncomingOperation` (lines 38-50) on the cache
   * value: a resumable operation absent from the cache is stored with
   * `context.fetch` removed, with `context.store` as its response; a
   * teardown on the client then deletes the entry of its key.
   */
  function Admit(cache: map<OperationKey, Stored>, op: Operation, isServer: bool): (map<OperationKey, Stored>, Operation) {
    var out := if op.resume && op.key !in cache then op.(fetch := None) else op;
    var stored := if op.resume && op.key !in cache then cache[op.key := Stored(out, op.store)] else cache;
    (if op.kind == Teardown && op.key in stored && !isServer then stored - {op.key} else stored, out)
  }

  /** An existing entry is never overwritten; only the operation's own key can gain or lose an entry. */
  lemma AdmitNeverOverwrites(cache: map<OperationKey, Stored>, op: Operation, isServer: bool, k: OperationKey)
    ensures k in cache && k in Admit(cache, op, isServer).0 ==> Admit(cache, op, isServer).0[k] == cache[k]
    ensures k != op.key ==> (k in Admit(cache, op, isServer).0 <==> k in cache)
  {
  }

  /**
   * A new entry appears exactly for a resumable, absent, non-torn-down
   * operation, and holds that operation without `fetch` and its store.
   */
  lemma AdmitStoresResumable(cache: map<OperationKey, Stored>, op: Operation, isServer: bool)
    ensures op.key !in cache && op.key in Admit(cache, op, isServer).0 <==>
      op.key !in cache && op.resume && (op.kind != Teardown || isServer)
    ensures op.key !in cache && op.key in Admit(cache, op, isServer).0 ==>
      Admit(cache, op, isServer).0[op.key] == Stored(op.(fetch := None), op.store)
  {
  }

  /** A teardown removes an entry only on the client, and only an existing one. */
  lemma AdmitTeardownOnlyOnClient(cache: map<OperationKey, Stored>, op: Operation, isServer: bool)
    ensures op.key in cache && op.key !in Admit(cache, op, isServer).0 <==> op.key in cache && op.kind == Teardown && !isServer
    ensures isServer ==> cache.Keys <= Admit(cache, op, isServer).0.Keys
  {
  }

  /** A non-empty set of keys has a member to pick. */
  lemma SomeKey(s: set<OperationKey>)
    requires s != {}
    ensures exists k :: k in s
  {
    if forall k :: k !in s {
      assert false;
    }
  }

  /** The closure state of the exchange: the cache store, the flag, and the keys it resumed. */
  class QwikResumeExchange {
    const isServer: bool
    var cache: map<OperationKey, Stored>
    var hasResumedQueries: bool
    /** The keys whose requests were re-executed, in order. */
    var resumed: seq<OperationKey>

    /** Nothing is resumed before the flag is set, never on the server, and no key twice. */
    ghost predicate Valid()
      reads this
    {
      && (!hasResumedQueries ==> resumed == [])
      && (isServer ==> !hasResumedQueries)
      && NoDuplicates(resumed)
    }

    constructor (isServer: bool, cache: map<OperationKey, Stored>)
      ensures Valid()
      ensures this.isServer == isServer && this.cache == cache && !hasResumedQueries && resumed == []
    {
      this.isServer := isServer;
      this.cache := cache;
      hasResumedQueries := false;
      resumed := [];
    }

    /**
     * Lines 23-51. The first operation seen on the client resumes every
     * stored key exactly once; later operations, and every operation on the
     * server, resume nothing.
     */
    method ProcessIncomingOperation(op: Operation) returns (out: Operation)
      requires Valid()
      modifies this
      ensures Valid()
      ensures hasResumedQueries == (old(hasResumedQueries) || !isServer)
      ensures old(hasResumedQueries) || isServer ==> resumed == old(resumed)
      ensures !old(hasResumedQueries) && !isServer ==> forall k :: k in resumed <==> k in old(cache)
      ensures (cache, out) == Admit(old(cache), op, isServer)
    {
      if !isServer && !hasResumedQueries {
        hasResumedQueries := true;
        var keys, done := cache.Keys, {};
        while keys != {}
          invariant cache == old(cache) && hasResumedQueries
          invariant keys + done == cache.Keys && keys !! done
          invariant NoDuplicates(resumed)
          invariant forall k :: k in resumed <==> k in done
          decreases keys
        {
          SomeKey(keys);
          var next :| next in keys;
          assert next !in resumed;
          // client.executeRequestOperation(cache[key].request)
          resumed := resumed + [next];
          keys, done := keys - {next}, done + {next};
        }
      }
      out := op;
      if op.resume && op.key !in cache {
        out := op.(fetch := None);
        cache := cache[op.key := Stored(out, op.store)];
      }
      if op.kind == Teardown && op.key in cache && !isServer {
        cache := cache - {op.key};
      }
    }

    /**
     * Lines 59-72. A result whose key has an entry loses `context.fetch` and
     * overwrites exactly the six result fields of that entry's store; the
     * store's other properties stay. A result without an entry changes
     * nothing. `ok == false` when the entry has no store to write into.
     */
    method InjectResult(result: OperationResult) returns (out: OperationResult, ok: bool)
      requires Valid()
      modifies if result.operation.key in cache && cache[result.operation.key].response != null
        then {cache[result.operation.key].response} else {}
      ensures result.operation.key !in cache ==> out == result && ok
      ensures result.operation.key in cache ==> out == result.(operation := result.operation.(fetch := None))
      ensures result.operation.key in cache ==> (ok <==> cache[result.operation.key].response != null)
      ensures result.operation.key in cache && cache[result.operation.key].response != null ==>
        var r := cache[result.operation.key].response;
        && r.data == result.data && r.error == result.error && r.extensions == result.extensions
        && r.hasNext == Some(result.hasNext) && r.operation == Some(out.operation) && r.stale == result.stale
        && r.rest == old(r.rest)
    {
      out, ok := result, true;
      var key := result.operation.key;
      if key in cache {
        var store := cache[key];
        out := result.(operation := result.operation.(fetch := None));
        if store.response == null {
          // `store.response.data = ...` throws on undefined
          return out, false;
        }
        var response := store.response;
        response.data := out.data;
        response.error := out.error;
        response.extensions := out.extensions;
        response.hasNext := Some(out.hasNext);
        response.operation := Some(out.operation);
        response.stale := out.stale;
      }
    }
  }

  /**
   * On the client, the first operation resumes every stored key and the
   * second resumes nothing more.
   */
  method ResumesAtMostOnce(stored: map<OperationKey, Stored>, op1: Operation, op2: Operation)
    returns (afterFirst: seq<OperationKey>, afterSecond: seq<OperationKey>)
    ensures forall k :: k in afterFirst <==> k in stored
    ensures NoDuplicates(afterFirst)
    ensures afterSecond == afterFirst
  {
    var ex := new QwikResumeExchange(false, stored);
    var out1 := ex.ProcessIncomingOperation(op1);
    afterFirst := ex.resumed;
    var out2 := ex.ProcessIncomingOperation(op2);
    afterSecond := ex.resumed;
  }

  /** On the server nothing is ever resumed. */
  method ServerNeverResumes(stored: map<OperationKey, Stored>, op: Operation) returns (resumed: seq<OperationKey>)
    ensures resumed == []
  {
    var ex := new QwikResumeExchange(true, stored);
    var out := ex.ProcessIncomingOperation(op);
    resumed := ex.resumed;
  }
}
