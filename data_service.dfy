/**
 * The client data service: the five-minute response cache, the health check, the
 * `getCatchData` flow and two small helpers. Network calls are not modelled; their
 * outcome (a value or a thrown message) is an input, and so is every clock reading.
 */
module DataService {
  import opened Wrappers
  import opened JsValues
  import opened CatchRecords
  import AllSites

  /** Cache lifetime in milliseconds: 5 minutes. */
  const CACHE_DURATION: int := 5 * 60 * 1000

  /** A cache entry: the clock reading when stored, and the value. */
  datatype CacheEntry<T> = CacheEntry(timestamp: int, data: T)

  /** An entry for `key` younger than `CACHE_DURATION` at time `now`; at exactly 300000 ms it is stale. */
  predicate IsFresh<T>(entries: map<string, CacheEntry<T>>, key: string, now: int) {
    key in entries && now - entries[key].timestamp < CACHE_DURATION
  }

  /** The module-level `cache` Map together with `withCache`. */
  class ResponseCache<T> {
    var entries: map<string, CacheEntry<T>>

    constructor ()
      ensures entries == map[]
    {
      entries := map[];
    }

    /**
     * `withCache(key, fetchFn)`. `now` is the clock reading of the freshness test,
     * `storedAt` the one taken after `fetchFn` settles, and `fetched` is what `fetchFn`
     * would settle to. `fetchCalls` counts how often `fetchFn` runs.
     */
    method WithCache(key: string, now: int, fetched: Result<T, string>, storedAt: int)
      returns (r: Result<T, string>, fetchCalls: nat)
      modifies this
      ensures IsFresh(old(entries), key, now) ==>
        r == Success(old(entries)[key].data) && fetchCalls == 0 && entries == old(entries)
      ensures !IsFresh(old(entries), key, now) ==> r == fetched && fetchCalls == 1
      ensures !IsFresh(old(entries), key, now) && fetched.Success? ==>
        entries == old(entries)[key := CacheEntry(storedAt, fetched.value)]
      ensures !IsFresh(old(entries), key, now) && fetched.Failure? ==> entries == old(entries)
    {
      if key in entries && now - entries[key].timestamp < CACHE_DURATION {
        return Success(entries[key].data), 0;
      }
      fetchCalls := 1;
      r := fetched;
      if fetched.Success? {
        entries := entries[key := CacheEntry(storedAt, fetched.value)];
      }
    }
  }

  /**
   * Two `withCache` calls for one key on a fresh cache: if the first fetch succeeds,
   * the second call within the lifetime returns the same value and `fetchFn` has run
   * once; past the lifetime it runs again.
   */
  method RepeatedCalls<T>(key: string, first: Result<T, string>, storedAt: int,
                          second: Result<T, string>, later: int, storedAgainAt: int)
    returns (r1: Result<T, string>, r2: Result<T, string>, calls: nat)
    ensures r1 == first
    ensures first.Success? && later - storedAt < CACHE_DURATION ==> r2 == first && calls == 1
    ensures first.Success? && later - storedAt >= CACHE_DURATION ==> r2 == second && calls == 2
    ensures first.Failure? ==> r2 == second && calls == 2
  {
    var cache := new ResponseCache<T>();
    var c1, c2;
    r1, c1 := cache.WithCache(key, storedAt, first, storedAt);
    r2, c2 := cache.WithCache(key, later, second, storedAgainAt);
    calls := c1 + c2;
  }

  /** `checkServerHealth`: `result.status === 'ok'`, and `false` whenever anything throws. */
  function CheckServerHealth(health: Result<JsValue, string>): (healthy: bool)
    ensures healthy <==>
      health.Success? && health.value.JsObject? &&
      "status" in health.value.fields && health.value.fields["status"] == JsString("ok")
  {
    match health
    case Failure(_) => false
    case Success(body) =>
      match GetProperty(body, "status")
      case Failure(_) => false
      case Success(status) => status == JsString("ok")
  }

  /** What `/cpue` answered: the array of records, or some other JSON value. */
  datatype CpueBody = RecordArray(records: seq<CpueRecord>) | NotAnArray(value: JsValue)

  const INVALID_FORMAT := "Invalid response format"
  const UNAVAILABLE := "Service is currently unavailable. Please try again later."
  const FAILURE_PREFIX := "Failed to fetch catch data: "

  /** The `fetchFn` that `getCatchData` hands to the cache: the API call, then the array check. */
  function FetchCpue(response: Result<CpueBody, string>): (r: Result<seq<CpueRecord>, string>)
    ensures r.Success? <==> response.Success? && response.value.RecordArray?
    ensures r.Success? ==> r.value == response.value.records
    ensures response.Failure? ==> r == Failure(response.error)
    ensures response.Success? && response.value.NotAnArray? ==> r == Failure(INVALID_FORMAT)
  {
    match response
    case Failure(m) => Failure(m)
    case Success(NotAnArray(_)) => Failure(INVALID_FORMAT)
    case Success(RecordArray(rs)) => Success(rs)
  }

  function CacheKey(site: string): string {
    "catch-" + site
  }

  /** What a successful `getCatchData(site)` returns for the records `data`. */
  ghost predicate IsCatchDataFor(data: seq<CpueRecord>, site: string, rows: seq<CatchPoint>) {
    if site == "all" then AllSites.IsAllSitesSeries(data, rows)
    else rows == SingleSiteSeries(data, site)
  }

  /** The branch on the selected site after the data is in hand. */
  method ProcessCatchData(data: seq<CpueRecord>, site: string) returns (rows: seq<CatchPoint>)
    ensures IsCatchDataFor(data, site, rows)
  {
    if site == "all" {
      rows := AllSites.AggregateAllSites(data);
    } else {
      rows := SingleSiteSeries(data, site);
    }
  }

  /**
   * `getCatchData(site)`. `health` is the outcome of the `/health` call, `response`
   * that of the `/cpue` call; `now` and `storedAt` are the cache's two clock readings.
   */
  method GetCatchData(cache: ResponseCache<seq<CpueRecord>>, site: string,
                      health: Result<JsValue, string>, response: Result<CpueBody, string>,
                      now: int, storedAt: int)
    returns (r: Result<seq<CatchPoint>, string>)
    modifies cache
    ensures r.Failure? ==> FAILURE_PREFIX <= r.error
    ensures !CheckServerHealth(health) ==>
      r == Failure(FAILURE_PREFIX + UNAVAILABLE) && cache.entries == old(cache.entries)
    ensures CheckServerHealth(health) && IsFresh(old(cache.entries), CacheKey(site), now) ==>
      r.Success? && IsCatchDataFor(old(cache.entries)[CacheKey(site)].data, site, r.value) &&
      cache.entries == old(cache.entries)
    ensures CheckServerHealth(health) && !IsFresh(old(cache.entries), CacheKey(site), now) ==>
      match FetchCpue(response)
      case Failure(m) => r == Failure(FAILURE_PREFIX + m) && cache.entries == old(cache.entries)
      case Success(rs) =>
        r.Success? && IsCatchDataFor(rs, site, r.value) &&
        cache.entries == old(cache.entries)[CacheKey(site) := CacheEntry(storedAt, rs)]
  {
    if !CheckServerHealth(health) {
      return Failure(FAILURE_PREFIX + UNAVAILABLE);
    }
    var data, calls := cache.WithCache(CacheKey(site), now, FetchCpue(response), storedAt);
    if data.Failure? {
      return Failure(FAILURE_PREFIX + data.error);
    }
    var rows := ProcessCatchData(data.value, site);
    r := Success(rows);
  }

  const ZANZIBAR_CENTER: (real, real) := (39.1977, -6.1659)

  /** `getDistrictData`'s result. */
  datatype District = District(id: string, labelText: string, bounds: (real, real))

  /** `toUpperCase` on one character, for the ASCII letters. */
  function UpperChar(c: char): char {
    if 'a' <= c <= 'z' then (c as int - 'a' as int + 'A' as int) as char else c
  }

  /** `s.replace(from, to)` with a one-character string pattern: only the first occurrence. */
  function ReplaceFirst(s: string, from: char, to: char): (r: string)
    ensures |r| == |s|
    ensures forall i :: 0 <= i < |s| ==> r[i] == if s[i] == from && from !in s[..i] then to else s[i]
  {
    if s == [] then []
    else if s[0] == from then [to] + s[1..]
    else
      var rest := ReplaceFirst(s[1..], from, to);
      assert forall i :: 1 <= i < |s| ==> s[..i] == [s[0]] + s[1..][..i - 1];
      [s[0]] + rest
  }

  /** `getDistrictData(site)`: id the site, label its first letter capitalised and its first later `_` a space. */
  function DistrictData(site: string): (d: District)
    ensures d.id == site && d.bounds == ZANZIBAR_CENTER
    ensures |d.labelText| == |site|
    ensures |site| > 0 ==> d.labelText[0] == UpperChar(site[0])
    ensures forall i :: 1 <= i < |site| ==>
      d.labelText[i] == if site[i] == '_' && '_' !in site[1..i] then ' ' else site[i]
  {
    var labelText := if site == [] then [] else [UpperChar(site[0])] + ReplaceFirst(site[1..], '_', ' ');
    assert forall i :: 1 <= i < |site| ==> site[1..][..i - 1] == site[1..i];
    District(site, labelText, ZANZIBAR_CENTER)
  }

  /** `getBaseUrl`: where the client sends its API requests. */
  function BaseUrl(env: Env): (url: string)
    ensures IsProduction(env) && env.vercelUrl != "" ==> url == "https://" + env.vercelUrl + "/api"
    ensures IsProduction(env) && env.vercelUrl == "" ==> url == "/api"
    ensures !IsProduction(env) && env.reactAppApiUrl != "" ==> url == env.reactAppApiUrl
    ensures !IsProduction(env) && env.reactAppApiUrl == "" ==> url == "http://localhost:3001/api"
  {
    if IsProduction(env) then
      if env.vercelUrl != "" then "https://" + env.vercelUrl + "/api" else "/api"
    else if env.reactAppApiUrl != "" then env.reactAppApiUrl
    else "http://localhost:3001/api"
  }

  /** In production the base URL always ends in the `/api` path. */
  lemma ProductionUrlEndsWithApi(env: Env)
    requires IsProduction(env)
    ensures var url := BaseUrl(env); |url| >= 4 && url[|url| - 4..] == "/api"
  {
  }
}
