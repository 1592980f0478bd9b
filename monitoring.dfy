/**
 * The request metrics of the production monitoring middleware: a counter of
 * responses and of error responses, the list of response times (trimmed to
 * the last 1000), and per endpoint a count, a total time and an error count.
 * The endpoint object's keys are kept in insertion order, as `Object.keys`
 * reports them. Clocks and the environment are inputs.
 */
module Monitoring {
  import opened Wrappers

  /** How many response times the periodic clean-up keeps. */
  const KEEP_TIMES := 1000

  /** Every how many requests the metrics are written out. */
  const LOG_EVERY := 100

  datatype EndpointStats = EndpointStats(count: int, totalTime: int, errors: int)

  datatype MetricsState = MetricsState(
    requests: int,
    errors: int,
    startTime: int,
    responseTimes: seq<int>,
    endpointKeys: seq<string>,
    endpoints: map<string, EndpointStats>)

  predicate Distinct(s: seq<string>) {
    forall i, j :: 0 <= i < j < |s| ==> s[i] != s[j]
  }

  /** The keys listed in `keys`, as a set. */
  function KeySet(keys: seq<string>): set<string> {
    if keys == [] then {} else KeySet(keys[..|keys| - 1]) + {keys[|keys| - 1]}
  }

  lemma {:induction false} KeySetMeaning(keys: seq<string>)
    ensures forall k :: k in KeySet(keys) <==> k in keys
  {
    if keys != [] {
      var init := keys[..|keys| - 1];
      KeySetMeaning(init);
      assert keys == init + [keys[|keys| - 1]];
    }
  }

  predicate AllIn(keys: seq<string>, m: map<string, EndpointStats>) {
    forall i :: 0 <= i < |keys| ==> keys[i] in m
  }

  /** The sum of `f` over the entries of `keys`. */
  function Sum(keys: seq<string>, m: map<string, EndpointStats>, f: EndpointStats -> int): int
    requires AllIn(keys, m)
  {
    if keys == [] then 0 else Sum(keys[..|keys| - 1], m, f) + f(m[keys[|keys| - 1]])
  }

  function Count(e: EndpointStats): int { e.count }

  function Errors(e: EndpointStats): int { e.errors }

  /**
   * The bookkeeping agrees with itself: each endpoint is listed once, the
   * endpoint counts add up to `requests` and their errors to `errors`, no
   * endpoint has more errors than responses, and no more response times are
   * kept than responses were counted.
   */
  ghost predicate Consistent(s: MetricsState) {
    && Distinct(s.endpointKeys)
    && AllIn(s.endpointKeys, s.endpoints)
    && s.endpoints.Keys == KeySet(s.endpointKeys)
    && (forall k :: k in s.endpoints ==> 0 <= s.endpoints[k].errors <= s.endpoints[k].count)
    && s.requests == Sum(s.endpointKeys, s.endpoints, Count)
    && s.errors == Sum(s.endpointKeys, s.endpoints, Errors)
    && |s.responseTimes| <= s.requests
  }

  /** The counters as the module starts them. */
  function Initial(startTime: int): (s: MetricsState)
    ensures Consistent(s)
  {
    MetricsState(0, 0, startTime, [], [], map[])
  }

  /** The endpoint key: the method and the route pattern, or the URL when there is no route. */
  function EndpointKey(verb: string, routePath: Option<string>, url: string): string {
    verb + " " + (if routePath.Some? && routePath.value != "" then routePath.value else url)
  }

  /**
   * `res.send` as `productionLogging` replaces it: outside production nothing
   * is counted; otherwise the response is counted, its time appended, its
   * endpoint created at zero if new and counted, and a status of 400 or more
   * counted as an error, globally and for the endpoint.
   */
  function Recorded(s: MetricsState, production: bool, verb: string, routePath: Option<string>, url: string,
                    status: int, responseTime: int): (r: MetricsState)
    ensures !production ==> r == s
    ensures r.startTime == s.startTime
    ensures production ==> r.endpoints.Keys == s.endpoints.Keys + {EndpointKey(verb, routePath, url)}
    ensures forall k :: k in s.endpoints && k != EndpointKey(verb, routePath, url) ==> r.endpoints[k] == s.endpoints[k]
  {
    if !production then s else Counted(s, EndpointKey(verb, routePath, url), status, responseTime)
  }

  /** The production branch of `Recorded`, for the response's endpoint. */
  function Counted(s: MetricsState, endpoint: string, status: int, responseTime: int): (r: MetricsState)
    ensures r.endpoints.Keys == s.endpoints.Keys + {endpoint}
    ensures r.endpointKeys == (if endpoint in s.endpoints then s.endpointKeys else s.endpointKeys + [endpoint])
    ensures var before := if endpoint in s.endpoints then s.endpoints[endpoint] else EndpointStats(0, 0, 0);
            var failed := if status >= 400 then 1 else 0;
            && r.endpoints[endpoint] == EndpointStats(before.count + 1, before.totalTime + responseTime, before.errors + failed)
            && r.requests == s.requests + 1 && r.errors == s.errors + failed
    ensures forall k :: k in s.endpoints && k != endpoint ==> r.endpoints[k] == s.endpoints[k]
    ensures r.startTime == s.startTime && r.responseTimes == s.responseTimes + [responseTime]
  {
    var keys := if endpoint in s.endpoints then s.endpointKeys else s.endpointKeys + [endpoint];
    var stats := if endpoint in s.endpoints then s.endpoints[endpoint] else EndpointStats(0, 0, 0);
    var failed := if status >= 400 then 1 else 0;
    MetricsState(s.requests + 1, s.errors + failed, s.startTime, s.responseTimes + [responseTime], keys,
                 s.endpoints[endpoint := EndpointStats(stats.count + 1, stats.totalTime + responseTime, stats.errors + failed)])
  }

  /** A sum does not look at entries outside its keys. */
  lemma {:induction false} SumIgnoresOthers(keys: seq<string>, m: map<string, EndpointStats>, k: string, v: EndpointStats,
                                             f: EndpointStats -> int)
    requires AllIn(keys, m) && k !in keys
    ensures AllIn(keys, m[k := v]) && Sum(keys, m[k := v], f) == Sum(keys, m, f)
  {
    if keys != [] {
      SumIgnoresOthers(keys[..|keys| - 1], m, k, v, f);
    }
  }

  /** Replacing the entry of a listed key changes the sum by the difference. */
  lemma {:induction false} SumUpdate(keys: seq<string>, m: map<string, EndpointStats>, k: string, v: EndpointStats,
                                     f: EndpointStats -> int)
    requires AllIn(keys, m) && Distinct(keys) && k in keys
    ensures AllIn(keys, m[k := v]) && Sum(keys, m[k := v], f) == Sum(keys, m, f) - f(m[k]) + f(v)
  {
    var init := keys[..|keys| - 1];
    var last := keys[|keys| - 1];
    if last == k {
      assert k !in init by {
        forall i | 0 <= i < |init| ensures init[i] != k {
          assert keys[i] == init[i];
        }
      }
      SumIgnoresOthers(init, m, k, v, f);
    } else {
      assert k in init by {
        var i :| 0 <= i < |keys| && keys[i] == k;
        assert i < |keys| - 1 && init[i] == k;
      }
      SumUpdate(init, m, k, v, f);
    }
  }

  /** A new key appended with its entry adds that entry to the sum. */
  lemma SumAppend(keys: seq<string>, m: map<string, EndpointStats>, k: string, v: EndpointStats, f: EndpointStats -> int)
    requires AllIn(keys, m) && k !in keys
    ensures AllIn(keys + [k], m[k := v]) && Sum(keys + [k], m[k := v], f) == Sum(keys, m, f) + f(v)
  {
    SumIgnoresOthers(keys, m, k, v, f);
    assert (keys + [k])[..|keys|] == keys;
  }

  /** Counting a response of an endpoint seen before keeps the bookkeeping consistent. */
  lemma KnownEndpointConsistent(s: MetricsState, endpoint: string, status: int, responseTime: int)
    requires Consistent(s) && endpoint in s.endpoints
    ensures Consistent(Counted(s, endpoint, status, responseTime))
  {
    var r := Counted(s, endpoint, status, responseTime);
    var v := r.endpoints[endpoint];
    KeySetMeaning(s.endpointKeys);
    SumUpdate(s.endpointKeys, s.endpoints, endpoint, v, Count);
    SumUpdate(s.endpointKeys, s.endpoints, endpoint, v, Errors);
  }

  /** Counting a response of a new endpoint keeps the bookkeeping consistent. */
  lemma NewEndpointConsistent(s: MetricsState, endpoint: string, status: int, responseTime: int)
    requires Consistent(s) && endpoint !in s.endpoints
    ensures Consistent(Counted(s, endpoint, status, responseTime))
  {
    var r := Counted(s, endpoint, status, responseTime);
    var v := r.endpoints[endpoint];
    KeySetMeaning(s.endpointKeys);
    assert endpoint !in s.endpointKeys;
    assert (s.endpointKeys + [endpoint])[..|s.endpointKeys|] == s.endpointKeys;
    SumAppend(s.endpointKeys, s.endpoints, endpoint, v, Count);
    SumAppend(s.endpointKeys, s.endpoints, endpoint, v, Errors);
    DistinctAppend(s.endpointKeys, endpoint);
    assert r.endpointKeys == s.endpointKeys + [endpoint];
    assert forall k :: k in r.endpoints ==> 0 <= r.endpoints[k].errors <= r.endpoints[k].count;
  }

  lemma DistinctAppend(keys: seq<string>, k: string)
    requires Distinct(keys) && k !in keys
    ensures Distinct(keys + [k])
  {
    var r := keys + [k];
    forall i, j | 0 <= i < j < |r| ensures r[i] != r[j] {
      if j == |keys| {
        assert r[i] == keys[i];
      }
    }
  }

  /**
   * Recording a response keeps the bookkeeping consistent: the endpoint
   * counts still add up to `requests`, their errors to `errors`, and no
   * endpoint has more errors than responses.
   */
  lemma RecordKeepsConsistent(s: MetricsState, production: bool, verb: string, routePath: Option<string>, url: string,
                              status: int, responseTime: int)
    requires Consistent(s)
    ensures Consistent(Recorded(s, production, verb, routePath, url, status, responseTime))
  {
    if production {
      var endpoint := EndpointKey(verb, routePath, url);
      if endpoint in s.endpoints {
        KnownEndpointConsistent(s, endpoint, status, responseTime);
      } else {
        NewEndpointConsistent(s, endpoint, status, responseTime);
      }
    }
  }

  /** A sum of non-negative entries is non-negative and bounds each of its entries. */
  lemma {:induction false} SumBounds(keys: seq<string>, m: map<string, EndpointStats>, f: EndpointStats -> int, k: string)
    requires AllIn(keys, m)
    requires forall x :: x in m ==> f(m[x]) >= 0
    ensures Sum(keys, m, f) >= 0
    ensures k in keys ==> f(m[k]) <= Sum(keys, m, f)
  {
    if keys != [] {
      SumBounds(keys[..|keys| - 1], m, f, k);
      assert k in keys ==> k == keys[|keys| - 1] || k in keys[..|keys| - 1] by {
        if k in keys {
          var i :| 0 <= i < |keys| && keys[i] == k;
          if i < |keys| - 1 {
            assert keys[..|keys| - 1][i] == k;
          }
        }
      }
    }
  }

  /** The errors never outnumber the requests, and no endpoint counts more responses than the whole. */
  lemma ErrorsWithinRequests(s: MetricsState, k: string)
    requires Consistent(s)
    ensures 0 <= s.errors <= s.requests
    ensures k in s.endpoints ==> s.endpoints[k].count <= s.requests
  {
    KeySetMeaning(s.endpointKeys);
    SumBounds(s.endpointKeys, s.endpoints, Errors, k);
    SumBounds(s.endpointKeys, s.endpoints, Count, k);
    ErrorsBelowCounts(s.endpointKeys, s.endpoints);
  }

  lemma {:induction false} ErrorsBelowCounts(keys: seq<string>, m: map<string, EndpointStats>)
    requires AllIn(keys, m)
    requires forall x :: x in m ==> m[x].errors <= m[x].count
    ensures Sum(keys, m, Errors) <= Sum(keys, m, Count)
  {
    if keys != [] {
      ErrorsBelowCounts(keys[..|keys| - 1], m);
    }
  }

  /**
   * One recorded response: in production exactly one more request, one more
   * response time at the end, and one more error exactly when the status is
   * 400 or above; outside production nothing changes.
   */
  lemma RecordCounts(s: MetricsState, production: bool, verb: string, routePath: Option<string>, url: string,
                     status: int, responseTime: int)
    ensures var r := Recorded(s, production, verb, routePath, url, status, responseTime);
            && (!production ==> r == s)
            && (production ==>
                  && r.requests == s.requests + 1
                  && r.responseTimes == s.responseTimes + [responseTime]
                  && (r.errors == s.errors + 1 <==> status >= 400)
                  && (status < 400 ==> r.errors == s.errors)
                  && EndpointKey(verb, routePath, url) in r.endpoints
                  && r.endpoints[EndpointKey(verb, routePath, url)].count ==
                     (if EndpointKey(verb, routePath, url) in s.endpoints
                      then s.endpoints[EndpointKey(verb, routePath, url)].count else 0) + 1)
  {
  }

  /** Whether `logMetrics` runs after the response that brought the counter to `requests`. */
  predicate LogsMetrics(requests: int) {
    requests % LOG_EVERY == 0
  }

  /**
   * The metrics are written out exactly at every hundredth request, and
   * then at least one request was counted, so the error rate `logMetrics`
   * divides by `requests` without a guard is well defined.
   */
  lemma LoggingDividesSafely(s: MetricsState, verb: string, routePath: Option<string>, url: string, status: int, responseTime: int)
    requires Consistent(s)
    ensures var r := Recorded(s, true, verb, routePath, url, status, responseTime);
            LogsMetrics(r.requests) ==> r.requests >= LOG_EVERY
  {
    ErrorsWithinRequests(s, "");
  }

  /** The periodic clean-up: only the last 1000 response times stay. */
  function Trimmed(times: seq<int>): (r: seq<int>)
    ensures |r| == if |times| > KEEP_TIMES then KEEP_TIMES else |times|
    ensures r == times[|times| - |r|..]
  {
    if |times| > KEEP_TIMES then times[|times| - KEEP_TIMES..] else times
  }

  /** Trimming is idempotent and, under 1000 times, changes nothing. */
  lemma TrimIdempotent(times: seq<int>)
    ensures Trimmed(Trimmed(times)) == Trimmed(times)
    ensures |times| <= KEEP_TIMES ==> Trimmed(times) == times
  {
  }

  /** The error rate `getHealthMetrics` reports: `'0%'` with no requests, otherwise a percentage. */
  datatype ErrorRate = NoRequests | Percent(errors: int, requests: int)

  datatype Health = Health(status: string, uptimeSeconds: int, requests: int, errors: int, errorRate: ErrorRate, endpoints: int)

  /**
   * `getHealthMetrics` at `now`: uptime in whole seconds, the counters, the
   * guarded error rate and the number of endpoints seen.
   */
  function HealthOf(s: MetricsState, now: int): (h: Health)
    requires Consistent(s) && now >= s.startTime
    ensures h.status == "healthy" && h.uptimeSeconds >= 0
    ensures h.uptimeSeconds * 1000 <= now - s.startTime < (h.uptimeSeconds + 1) * 1000
    ensures h.requests == s.requests && h.errors == s.errors
    ensures h.errorRate.NoRequests? <==> s.requests == 0
    ensures s.requests > 0 ==> h.errorRate == Percent(s.errors, s.requests)
    ensures h.errorRate.Percent? ==> 0 <= h.errorRate.errors <= h.errorRate.requests && h.errorRate.requests > 0
    ensures h.endpoints == |s.endpoints|
  {
    ErrorsWithinRequests(s, "");
    EndpointsCounted(s);
    Health("healthy", (now - s.startTime) / 1000, s.requests, s.errors,
           if s.requests > 0 then Percent(s.errors, s.requests) else NoRequests, |s.endpointKeys|)
  }

  /** `Object.keys(metrics.endpoints).length` is the number of endpoints. */
  lemma EndpointsCounted(s: MetricsState)
    requires Consistent(s)
    ensures |s.endpointKeys| == |s.endpoints|
  {
    DistinctCard(s.endpointKeys);
  }

  lemma {:induction false} DistinctCard(keys: seq<string>)
    requires Distinct(keys)
    ensures |KeySet(keys)| == |keys|
  {
    if keys != [] {
      var init := keys[..|keys| - 1];
      var last := keys[|keys| - 1];
      DistinctCard(init);
      KeySetMeaning(init);
      assert last !in init by {
        forall i | 0 <= i < |init| ensures init[i] != last {
          assert keys[i] == init[i];
        }
      }
    }
  }

  /** The module-level `metrics` object. */
  class Metrics {
    var requests: int
    var errors: int
    const startTime: int
    var responseTimes: seq<int>
    var endpointKeys: seq<string>
    var endpoints: map<string, EndpointStats>

    function State(): MetricsState
      reads this
    {
      MetricsState(requests, errors, startTime, responseTimes, endpointKeys, endpoints)
    }

    ghost predicate Valid()
      reads this
    {
      Consistent(State())
    }

    constructor(startTime: int)
      ensures Valid()
      ensures State() == Initial(startTime)
    {
      requests := 0;
      errors := 0;
      this.startTime := startTime;
      responseTimes := [];
      endpointKeys := [];
      endpoints := map[];
    }

    /**
     * One response through `productionLogging`'s `res.send`; answers whether
     * `logMetrics` runs afterwards.
     */
    method RecordResponse(production: bool, verb: string, routePath: Option<string>, url: string,
                          status: int, responseTime: int) returns (logNow: bool)
      requires Valid()
      modifies this
      ensures Valid()
      ensures State() == Recorded(old(State()), production, verb, routePath, url, status, responseTime)
      ensures logNow <==> production && LogsMetrics(requests)
    {
      ghost var before := State();
      if !production {
        return false;
      }
      var endpoint := EndpointKey(verb, routePath, url);
      var table, keys := endpoints, endpointKeys;
      if endpoint !in table {
        table := table[endpoint := EndpointStats(0, 0, 0)];
        keys := keys + [endpoint];
      }
      var stats := table[endpoint];
      assert stats == if endpoint in endpoints then endpoints[endpoint] else EndpointStats(0, 0, 0);
      stats := stats.(count := stats.count + 1, totalTime := stats.totalTime + responseTime);
      var errorCount := errors;
      if status >= 400 {
        errorCount := errorCount + 1;
        stats := stats.(errors := stats.errors + 1);
      }
      assert table[endpoint := stats] == endpoints[endpoint := stats];
      requests, errors, responseTimes := requests + 1, errorCount, responseTimes + [responseTime];
      endpointKeys, endpoints := keys, table[endpoint := stats];
      assert State() == Counted(before, endpoint, status, responseTime);
      RecordKeepsConsistent(before, production, verb, routePath, url, status, responseTime);
      logNow := LogsMetrics(requests);
    }

    /** The clean-up `setInterval` runs every minute. */
    method TrimResponseTimes()
      requires Valid()
      modifies this
      ensures Valid()
      ensures State() == old(State()).(responseTimes := Trimmed(old(responseTimes)))
    {
      if |responseTimes| > KEEP_TIMES {
        responseTimes := responseTimes[|responseTimes| - KEEP_TIMES..];
      }
    }

    /** `getHealthMetrics()` at `now`. */
    function Health(now: int): Health
      reads this
      requires Valid() && now >= startTime
    {
      HealthOf(State(), now)
    }
  }
}
