/** The helpers that wrap an HTTP call: turning a response or an error into
    a uniform record, raising a loading flag around a call, catching errors,
    retrying with a growing pause, and keeping successful results for a
    while. An awaited call is given by its outcome; the clock, the pauses and
    the serialised arguments are values passed in. */
module ApiClient {
  import opened Js

  /** `formatApiResponse`: a success record copying the body and the
      status; its message is the body's message, or "Success". */
  function FormatApiResponse(response: Json): (r: Outcome<Json>)
    ensures r.Threw? <==> Nullish(response)
    ensures r.Threw? ==> r.error == TypeErrorValue
    ensures r.Returned? ==> r.value.Obj? && r.value.fields.Keys == {"success", "data", "status", "message"}
    ensures r.Returned? ==> Get(r.value, "success") == Bool(true)
    ensures r.Returned? ==> Get(r.value, "data") == Get(response, "data")
    ensures r.Returned? ==> Get(r.value, "status") == Get(response, "status")
    ensures r.Returned? ==> Truthy(Get(r.value, "message"))
    ensures r.Returned? && Truthy(Get(Get(response, "data"), "message")) ==>
      Get(r.value, "message") == Get(Get(response, "data"), "message")
    ensures r.Returned? && !Truthy(Get(Get(response, "data"), "message")) ==>
      Get(r.value, "message") == Str("Success")
  {
    if Nullish(response) then Threw(TypeErrorValue)
    else
      Returned(Obj(map[
        "success" := Bool(true),
        "data" := Get(response, "data"),
        "status" := Get(response, "status"),
        "message" := Or(Get(Get(response, "data"), "message"), Str("Success"))]))
  }

  /** `formatApiError`: a failure record. The text falls back from the
      body's message to the error's message to a fixed text, the status
      from the response's to 500, the details from the body to `null`. */
  function FormatApiError(error: Json): (r: Outcome<Json>)
    ensures r.Threw? <==> Nullish(error)
    ensures r.Threw? ==> r.error == TypeErrorValue
    ensures r.Returned? ==> r.value.Obj? && r.value.fields.Keys == {"success", "error", "status", "details"}
    ensures r.Returned? ==> Get(r.value, "success") == Bool(false)
    ensures r.Returned? ==> var text, body := Get(r.value, "error"), Get(Get(error, "response"), "data");
      && Truthy(text)
      && (Truthy(Get(body, "message")) ==> text == Get(body, "message"))
      && (!Truthy(Get(body, "message")) && Truthy(Get(error, "message")) ==> text == Get(error, "message"))
      && (!Truthy(Get(body, "message")) && !Truthy(Get(error, "message")) ==> text == Str("An error occurred"))
    ensures r.Returned? ==> var status := Get(Get(error, "response"), "status");
      && Truthy(Get(r.value, "status"))
      && (Truthy(status) ==> Get(r.value, "status") == status)
      && (!Truthy(status) ==> Get(r.value, "status") == Num(500))
    ensures r.Returned? ==> var body := Get(Get(error, "response"), "data");
      && (Truthy(body) ==> Get(r.value, "details") == body)
      && (!Truthy(body) ==> Get(r.value, "details") == Null)
  {
    if Nullish(error) then Threw(TypeErrorValue)
    else
      var response := Get(error, "response");
      Returned(Obj(map[
        "success" := Bool(false),
        "error" := Or(Or(Get(Get(response, "data"), "message"), Get(error, "message")), Str("An error occurred")),
        "status" := Or(Get(response, "status"), Num(500)),
        "details" := Or(Get(response, "data"), Null)]))
  }

  /** An HTTP failure carrying a status and a body with a message is
      reported with exactly that status and message, and the body as its
      details. */
  lemma FormatApiErrorKeepsServerMessage(status: int, message: string, errorText: Json)
    requires status != 0 && message != ""
    ensures var body := Obj(map["message" := Str(message)]);
      var error := Obj(map["response" := Obj(map["status" := Num(status), "data" := body]), "message" := errorText]);
      FormatApiError(error) == Returned(Obj(map[
        "success" := Bool(false), "error" := Str(message), "status" := Num(status), "details" := body]))
  {
  }

  /** A formatted response always reads as a success and a formatted error
      never does, so a cache that stores successes stores the one and never
      the other. */
  lemma FormattedRecordsDiffer(response: Json, error: Json)
    requires !Nullish(response) && !Nullish(error)
    ensures Truthy(Get(FormatApiResponse(response).value, "success"))
    ensures !Truthy(Get(FormatApiError(error).value, "success"))
  {
  }

  /** What a helper around a call did, in order. */
  datatype Event = SetLoading(on: bool) | Invoked

  /** The component state a `setLoading` callback writes, with the trace of
      everything done around it. */
  class LoadingState {
    var loading: bool
    var trace: seq<Event>

    constructor ()
      ensures !loading && trace == []
    {
      loading := false;
      trace := [];
    }
  }

  /** `withLoading`: loading is switched on, the call runs, and loading is
      switched off again whether the call returned or threw; the call's
      outcome is passed on unchanged. */
  method WithLoading(call: Outcome<Json>, state: LoadingState) returns (r: Outcome<Json>)
    modifies state
    ensures r == call
    ensures !state.loading
    ensures state.trace == old(state.trace) + [SetLoading(true), Invoked, SetLoading(false)]
  {
    state.loading := true;
    state.trace := state.trace + [SetLoading(true)];
    state.trace := state.trace + [Invoked];
    r := call;
    state.loading := false;
    state.trace := state.trace + [SetLoading(false)];
  }

  /** `withErrorHandling`: a result passes through; a thrown error comes
      back as its formatted record, so the wrapper only throws when what was
      thrown is `null` or `undefined` and cannot be formatted. */
  function WithErrorHandling(call: Outcome<Json>): (r: Outcome<Json>)
    ensures call.Returned? ==> r == call
    ensures r.Threw? <==> call.Threw? && Nullish(call.error)
    ensures call.Threw? ==> r == FormatApiError(call.error)
    ensures call.Threw? && !Nullish(call.error) ==>
      r.Returned? && Get(r.value, "success") == Bool(false)
  {
    match call
    case Returned(_) => call
    case Threw(error) => FormatApiError(error)
  }

  const DefaultMaxRetries: int := 3
  const DefaultRetryDelay: int := 1000

  /** `withRetry`: calls until one returns, at most `maxRetries` times,
      pausing `delay * (i + 1)` after failed attempt `i` unless it was the
      last one; when every attempt threw it rethrows the last error, and
      `undefined` when there was no attempt. Attempt `i` is
      `attempt(i)`. */
  method WithRetry(attempt: nat -> Outcome<Json>, maxRetries: int, delay: int)
    returns (r: Outcome<Json>, calls: nat, pauses: seq<int>)
    ensures calls <= if maxRetries > 0 then maxRetries else 0
    ensures forall i :: 0 <= i < calls - 1 ==> attempt(i).Threw?
    ensures r.Returned? ==> 1 <= calls && r == attempt(calls - 1)
    ensures r.Threw? ==> calls == (if maxRetries > 0 then maxRetries else 0)
    ensures r.Threw? && calls > 0 ==> r == attempt(calls - 1)
    ensures r.Threw? && calls == 0 ==> r == Threw(Undefined)
    ensures |pauses| == (if calls > 0 then calls - 1 else 0)
    ensures forall i :: 0 <= i < |pauses| ==> pauses[i] == delay * (i + 1)
  {
    var lastError := Undefined;
    pauses := [];
    calls := 0;
    var i := 0;
    while i < maxRetries
      invariant 0 <= i && (maxRetries > 0 ==> i <= maxRetries) && (maxRetries <= 0 ==> i == 0)
      invariant calls == i
      invariant forall k :: 0 <= k < i ==> attempt(k).Threw?
      invariant i > 0 ==> lastError == attempt(i - 1).error
      invariant i == 0 ==> lastError == Undefined
      invariant |pauses| == if i > 0 && i == maxRetries then i - 1 else i
      invariant forall k :: 0 <= k < |pauses| ==> pauses[k] == delay * (k + 1)
    {
      var result := attempt(i);
      calls := calls + 1;
      if result.Returned? {
        return result, calls, pauses;
      }
      lastError := result.error;
      if i < maxRetries - 1 {
        pauses := pauses + [delay * (i + 1)];
      }
      i := i + 1;
    }
    r := Threw(lastError);
  }

  /** A stored result and the time it was stored. */
  datatype CacheEntry = CacheEntry(data: Json, timestamp: int)

  /** The cached data for `key` when there is an entry younger than `ttl`. */
  function Fresh(entries: map<string, CacheEntry>, key: string, now: int, ttl: int): (r: Option<Json>)
    ensures r.Some? <==> key in entries && now - entries[key].timestamp < ttl
    ensures r.Some? ==> r.value == entries[key].data
  {
    if key in entries && now - entries[key].timestamp < ttl then Some(entries[key].data) else None
  }

  /** The entries after a call made at `now` returned `result`: the data is
      stored only for a successful result. */
  function Store(entries: map<string, CacheEntry>, key: string, now: int, result: Json): (stored: map<string, CacheEntry>)
    requires !Nullish(result)
    ensures Truthy(Get(result, "success")) ==> key in stored && stored[key] == CacheEntry(Get(result, "data"), now)
    ensures stored.Keys == if Truthy(Get(result, "success")) then entries.Keys + {key} else entries.Keys
  {
    if Truthy(Get(result, "success")) then entries[key := CacheEntry(Get(result, "data"), now)] else entries
  }

  /** The record a cache hit returns. */
  function CachedResponse(data: Json): Json {
    Obj(map["success" := Bool(true), "data" := data, "fromCache" := Bool(true)])
  }

  /** After a successful call, the same arguments are answered from the
      cache, with the same data, until `ttl` milliseconds have passed. */
  lemma StoredResultIsServed(entries: map<string, CacheEntry>, key: string, now: int, later: int, ttl: int, result: Json)
    requires !Nullish(result) && Truthy(Get(result, "success"))
    requires later - now < ttl
    ensures Fresh(Store(entries, key, now, result), key, later, ttl) == Some(Get(result, "data"))
  {
  }

  /** A failed call changes no entry: in particular an older success for
      the same arguments stays, expired or not. */
  lemma FailureKeepsEntries(entries: map<string, CacheEntry>, key: string, now: int, result: Json)
    requires !Nullish(result) && !Truthy(Get(result, "success"))
    ensures Store(entries, key, now, result) == entries
  {
  }

  /** Storing touches only its own key and never removes one. */
  lemma StoreTouchesOneKey(entries: map<string, CacheEntry>, key: string, now: int, result: Json)
    requires !Nullish(result)
    ensures entries.Keys <= Store(entries, key, now, result).Keys
    ensures forall k :: k in entries && k != key ==> Store(entries, key, now, result)[k] == entries[k]
  {
  }

  /** The map a `withCache` wrapper closes over, with its prefix and
      time-to-live. */
  class Cache {
    var entries: map<string, CacheEntry>
    const cacheKey: string
    const ttl: int

    /** `withCache(apiFunction, cacheKey, ttl)` with an empty map. */
    constructor (cacheKey: string, ttl: int)
      ensures this.cacheKey == cacheKey && this.ttl == ttl && entries == map[]
    {
      this.cacheKey := cacheKey;
      this.ttl := ttl;
      entries := map[];
    }

    /** The key for one call: the prefix, `_`, and the serialised
        arguments. */
    function Key(args: string): (k: string)
      reads this
      ensures |k| == |cacheKey| + 1 + |args|
      ensures k[..|cacheKey|] == cacheKey && k[|cacheKey|] == '_' && k[|cacheKey| + 1..] == args
    {
      cacheKey + "_" + args
    }

    /** One call of the wrapped function with arguments serialised as
        `args` at time `now`; `fetch` is what the function's call would
        give. A fresh entry answers without calling; otherwise the call is
        made and a success is stored. A result that is `null` or
        `undefined` makes the test of `success` throw. */
    method Call(args: string, now: int, fetch: Outcome<Json>) returns (r: Outcome<Json>, called: bool)
      modifies this
      ensures var hit := Fresh(old(entries), Key(args), now, ttl);
        && (hit.Some? ==> !called && r == Returned(CachedResponse(hit.value)) && entries == old(entries))
        && (hit.None? ==> called)
        && (hit.None? && fetch.Threw? ==> r == fetch && entries == old(entries))
        && (hit.None? && fetch.Returned? && Nullish(fetch.value) ==>
              r == Threw(TypeErrorValue) && entries == old(entries))
        && (hit.None? && fetch.Returned? && !Nullish(fetch.value) ==>
              r == fetch && entries == Store(old(entries), Key(args), now, fetch.value))
    {
      var key := cacheKey + "_" + args;
      if key in entries {
        var entry := entries[key];
        if now - entry.timestamp < ttl {
          return Returned(CachedResponse(entry.data)), false;
        }
      }
      called := true;
      if fetch.Threw? {
        return fetch, called;
      }
      var result := fetch.value;
      if Nullish(result) {
        return Threw(TypeErrorValue), called;
      }
      if Truthy(Get(result, "success")) {
        entries := entries[key := CacheEntry(Get(result, "data"), now)];
      }
      r := fetch;
    }
  }

  const DefaultTtl: int := 5 * 60 * 1000
}
