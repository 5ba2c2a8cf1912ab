/** `make_url_request_using_cache` and `make_url_request_using_cache_API`:
    look the request's key up in the cache; on a miss fetch, store, save.
    The two differ only in how the fetched response is decoded (raw text or
    parsed JSON), so one definition generic in the stored value `V` models
    both; the fetch (the HTTP GET plus decoding) is a parameter. */
module RequestCache {
  import opened Wrappers
  import opened Fingerprint

  /** The in-memory cache: request key to stored response. */
  type Cache<V> = map<string, V>

  /** A request: the URL and its query parameters (`None` for a plain page). */
  type Request = (string, Option<Params>)

  function KeyOf(q: Request): string {
    UniqueKey(q.0, q.1)
  }

  /** One call's result: the response returned, the cache afterwards, and
      what `save_cache` wrote to disk (`None` when nothing was written). */
  datatype Outcome<V> = Outcome(response: V, cache: Cache<V>, saved: Option<Cache<V>>)

  /** The cache afterwards equals `cache` with `key` mapped to the response,
      and nothing else different. */
  ghost predicate UpdatedOnlyAt<V>(cache: Cache<V>, after: Cache<V>, key: string, v: V) {
    && after.Keys == cache.Keys + {key}
    && after[key] == v
    && forall k :: k in cache && k != key ==> after[k] == cache[k]
  }

  function RequestUsingCache<V>(url: string, cache: Cache<V>, params: Option<Params>,
                                fetch: (string, Option<Params>) -> V): (r: Outcome<V>)
    ensures var key := UniqueKey(url, params);
      && UpdatedOnlyAt(cache, r.cache, key, r.response)
      && (key in cache ==> r.response == cache[key] && r.cache == cache && r.saved == None)
      && (key !in cache ==> r.response == fetch(url, params) && r.saved == Some(r.cache))
  {
    var key := UniqueKey(url, params);
    if key in cache then
      Outcome(cache[key], cache, None)
    else
      var updated := cache[key := fetch(url, params)];
      Outcome(updated[key], updated, Some(updated))
  }

  /** The same call when the fetch can fail: `requests.get` or decoding the
      response raises. The exception leaves the function before the
      assignment into the cache, so nothing is stored and nothing is saved;
      the caller keeps its cache as it was and receives the error. */
  function TryRequestUsingCache<V, E>(url: string, cache: Cache<V>, params: Option<Params>,
                                      fetch: (string, Option<Params>) -> Result<V, E>)
    : (r: Result<Outcome<V>, E>)
    ensures var key := UniqueKey(url, params);
      && (key in cache ==> r == Success(Outcome(cache[key], cache, None)))
      && (key !in cache ==> (r.Failure? <==> fetch(url, params).Failure?))
      && (key !in cache && r.Failure? ==> r.error == fetch(url, params).error)
      && (key !in cache && r.Success? ==>
            && UpdatedOnlyAt(cache, r.value.cache, key, r.value.response)
            && Success(r.value.response) == fetch(url, params)
            && r.value.saved == Some(r.value.cache))
  {
    var key := UniqueKey(url, params);
    if key in cache then
      Success(Outcome(cache[key], cache, None))
    else
      match fetch(url, params)
      case Failure(e) => Failure(e)
      case Success(v) =>
        var updated := cache[key := v];
        Success(Outcome(updated[key], updated, Some(updated)))
  }

  /** With a fetch that never fails, the fallible call is the total one. */
  lemma TryAgreesWhenFetchSucceeds<V, E>(url: string, cache: Cache<V>, params: Option<Params>,
                                         f: (string, Option<Params>) -> V,
                                         g: (string, Option<Params>) -> Result<V, E>)
    requires forall u, p :: g(u, p) == Success(f(u, p))
    ensures TryRequestUsingCache(url, cache, params, g) == Success(RequestUsingCache(url, cache, params, f))
  {
    var key := UniqueKey(url, params);
    if key !in cache {
      assert g(url, params) == Success(f(url, params));
    }
  }

  /** On a hit the fetch is never consulted: any two fetch functions give
      the same outcome. */
  lemma HitIgnoresFetch<V>(url: string, cache: Cache<V>, params: Option<Params>,
                           f: (string, Option<Params>) -> V, g: (string, Option<Params>) -> V)
    requires UniqueKey(url, params) in cache
    ensures RequestUsingCache(url, cache, params, f) == RequestUsingCache(url, cache, params, g)
  {
  }

  /** A miss adds exactly one entry. */
  lemma MissAddsOneEntry<V>(url: string, cache: Cache<V>, params: Option<Params>,
                            fetch: (string, Option<Params>) -> V)
    requires UniqueKey(url, params) !in cache
    ensures |RequestUsingCache(url, cache, params, fetch).cache| == |cache| + 1
  {
    var key := UniqueKey(url, params);
    var after := RequestUsingCache(url, cache, params, fetch).cache;
    assert after.Keys == cache.Keys + {key};
    assert |after.Keys| == |cache.Keys| + 1;
  }

  /** Asking again for the same request is a hit returning the same response,
      whatever the second fetch would have produced. */
  lemma RepeatIsHit<V>(url: string, cache: Cache<V>, params: Option<Params>,
                       f: (string, Option<Params>) -> V, g: (string, Option<Params>) -> V)
    ensures var first := RequestUsingCache(url, cache, params, f);
      var second := RequestUsingCache(url, first.cache, params, g);
      second.response == first.response && second.cache == first.cache && second.saved == None
  {
  }

  /** The distinct keys a sequence of requests asks for. */
  function KeysOf(reqs: seq<Request>): set<string> {
    set i | 0 <= i < |reqs| :: KeyOf(reqs[i])
  }

  /** A run of requests: the responses, the cache at the end, and how many
      requests went out to the network. */
  datatype Run<V> = Run(responses: seq<V>, cache: Cache<V>, fetches: nat)

  /** The responses to `reqs`, issued one after another through the cache. */
  function RunRequests<V>(reqs: seq<Request>, cache: Cache<V>,
                          fetch: (string, Option<Params>) -> V): (r: Run<V>)
    ensures |r.responses| == |reqs|
    decreases |reqs|
  {
    if |reqs| == 0 then Run([], cache, 0)
    else
      var first := RequestUsingCache(reqs[0].0, cache, reqs[0].1, fetch);
      var rest := RunRequests(reqs[1..], first.cache, fetch);
      Run([first.response] + rest.responses, rest.cache,
          (if first.saved.Some? then 1 else 0) + rest.fetches)
  }

  /** A run ends up holding every key it started with and every requested
      key, and no other. */
  lemma {:induction false} RunKeys<V>(reqs: seq<Request>, cache: Cache<V>,
                                      fetch: (string, Option<Params>) -> V)
    ensures RunRequests(reqs, cache, fetch).cache.Keys == cache.Keys + KeysOf(reqs)
    decreases |reqs|
  {
    if |reqs| == 0 {
      assert KeysOf(reqs) == {};
    } else {
      var first := RequestUsingCache(reqs[0].0, cache, reqs[0].1, fetch);
      RunKeys(reqs[1..], first.cache, fetch);
      KeysOfCons(reqs);
    }
  }

  /** A run never changes an entry the cache already held. */
  lemma {:induction false} RunKeeps<V>(reqs: seq<Request>, cache: Cache<V>,
                                       fetch: (string, Option<Params>) -> V)
    ensures var after := RunRequests(reqs, cache, fetch).cache;
      forall k :: k in cache ==> k in after && after[k] == cache[k]
    decreases |reqs|
  {
    if |reqs| > 0 {
      var first := RequestUsingCache(reqs[0].0, cache, reqs[0].1, fetch);
      RunKeeps(reqs[1..], first.cache, fetch);
    }
  }

  /** Each request in a run is answered with what the cache holds for its
      key at the end of the run. */
  lemma {:induction false} RunAnswers<V>(reqs: seq<Request>, cache: Cache<V>,
                                         fetch: (string, Option<Params>) -> V)
    ensures var r := RunRequests(reqs, cache, fetch);
      forall i :: 0 <= i < |reqs| ==> KeyOf(reqs[i]) in r.cache && r.responses[i] == r.cache[KeyOf(reqs[i])]
    decreases |reqs|
  {
    if |reqs| > 0 {
      var r := RunRequests(reqs, cache, fetch);
      var first := RequestUsingCache(reqs[0].0, cache, reqs[0].1, fetch);
      RunAnswers(reqs[1..], first.cache, fetch);
      RunKeeps(reqs[1..], first.cache, fetch);
      forall i | 0 <= i < |reqs|
        ensures KeyOf(reqs[i]) in r.cache && r.responses[i] == r.cache[KeyOf(reqs[i])]
      {
        if i > 0 { assert reqs[1..][i - 1] == reqs[i]; }
      }
    }
  }

  /** A run goes to the network once per distinct key the cache did not
      already hold. */
  lemma {:induction false} RunFetchCount<V>(reqs: seq<Request>, cache: Cache<V>,
                                            fetch: (string, Option<Params>) -> V)
    ensures RunRequests(reqs, cache, fetch).fetches == |KeysOf(reqs) - cache.Keys|
    decreases |reqs|
  {
    if |reqs| == 0 {
      assert KeysOf(reqs) == {};
    } else {
      var k0 := KeyOf(reqs[0]);
      var first := RequestUsingCache(reqs[0].0, cache, reqs[0].1, fetch);
      RunFetchCount(reqs[1..], first.cache, fetch);
      KeysOfCons(reqs);
      FetchCountStep(cache.Keys, k0, KeysOf(reqs[1..]));
    }
  }

  /** Counting the keys still to fetch, one request at a time. */
  lemma FetchCountStep(held: set<string>, k0: string, later: set<string>)
    ensures |({k0} + later) - held|
         == (if k0 in held then 0 else 1) + |later - (held + {k0})|
  {
    var all := ({k0} + later) - held;
    var rest := later - (held + {k0});
    if k0 in held {
      assert all == rest;
    } else {
      assert all == {k0} + rest;
      assert k0 !in rest;
    }
  }

  /** From an empty cache, a run fetches exactly once per distinct key,
      never more often than there are requests. */
  lemma FreshRunFetchesEachKeyOnce<V>(reqs: seq<Request>, fetch: (string, Option<Params>) -> V)
    ensures RunRequests(reqs, map[], fetch).fetches == |KeysOf(reqs)| <= |reqs|
  {
    RunFetchCount(reqs, map[], fetch);
    var empty: Cache<V> := map[];
    assert KeysOf(reqs) - empty.Keys == KeysOf(reqs);
    KeysAtMostRequests(reqs);
  }

  lemma KeysOfCons(reqs: seq<Request>)
    requires |reqs| > 0
    ensures KeysOf(reqs) == {KeyOf(reqs[0])} + KeysOf(reqs[1..])
  {
    forall k | k in KeysOf(reqs) ensures k in {KeyOf(reqs[0])} + KeysOf(reqs[1..]) {
      var i :| 0 <= i < |reqs| && KeyOf(reqs[i]) == k;
      if i > 0 { assert reqs[1..][i - 1] == reqs[i]; }
    }
    forall k | k in KeysOf(reqs[1..]) ensures k in KeysOf(reqs) {
      var i :| 0 <= i < |reqs[1..]| && KeyOf(reqs[1..][i]) == k;
      assert reqs[i + 1] == reqs[1..][i];
    }
  }

  lemma {:induction false} KeysAtMostRequests(reqs: seq<Request>)
    ensures |KeysOf(reqs)| <= |reqs|
    decreases |reqs|
  {
    if |reqs| > 0 {
      KeysOfCons(reqs);
      KeysAtMostRequests(reqs[1..]);
      assert |{KeyOf(reqs[0])} + KeysOf(reqs[1..])| <= 1 + |KeysOf(reqs[1..])|;
    }
  }
}
