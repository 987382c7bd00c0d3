/** The cached client (`FREDAPICached`, fred_api_cached.py): four read-through
    fetchers over the cache store, all cut from one template. Each serves
    from the cache when it is not forced to refresh, its key is fresh and the
    cached read is not empty; otherwise it asks the remote, writes a
    non-empty record list through to the store, stamps the key whatever the
    store reported, and returns the remote's reply marked as not cached. */
module CachedApi {
  import opened Wrappers
  import opened JsonValues
  import opened Seqs
  import opened Records
  import opened CacheStore
  import opened CacheKeys
  import opened Requests

  /** Which of a fetcher's two writes a storage fault hits. */
  datatype WriteKind = DataWrite | MetadataWrite

  /** The storage faults of the environment: whether the write of a kind
      made for a cache key fails at commit. */
  type Faults = (string, WriteKind) -> bool

  /** A client: the remote API and the storage it writes through to. */
  datatype Client = Client(api: Api, faults: Faults)

  /** A fetcher's outcome: its return value, the store afterwards, and the
      remote calls it made. */
  datatype Fetch = Fetch(payload: Option<Object>, store: Store, calls: seq<Call>)

  /** The four cached fetchers, each with its arguments:
      `get_releases_cached`, `get_release_info_cached`,
      `get_release_series_cached` and `get_series_observations_cached`
      (whose keyword arguments are strings here). */
  datatype Endpoint =
    | Releases(limit: int)
    | ReleaseInfo(releaseId: int)
    | ReleaseSeries(releaseId: int, limit: int)
    | Observations(seriesId: string, limit: int, kwargs: map<string, string>)

  // ---------------------------------------------------------- per endpoint

  function CacheKey(e: Endpoint): string {
    match e
    case Releases(limit) => ReleasesKey(limit)
    case ReleaseInfo(rid) => ReleaseKey(rid)
    case ReleaseSeries(rid, limit) => SeriesKey(rid, limit)
    case Observations(sid, limit, kwargs) => ObservationsKey(sid, limit, kwargs)
  }

  /** The `cache_type` the key is stamped with. */
  function CacheType(e: Endpoint): string {
    match e
    case Releases(_) => "releases"
    case ReleaseInfo(_) => "release"
    case ReleaseSeries(_, _) => "series"
    case Observations(_, _, _) => "observations"
  }

  /** The entry of the reply that holds the records. */
  function ListKey(e: Endpoint): string {
    match e
    case Releases(_) => "releases"
    case ReleaseInfo(_) => "releases"
    case ReleaseSeries(_, _) => "seriess"
    case Observations(_, _, _) => "observations"
  }

  /** String keyword arguments as request parameters. */
  function JsonFilters(kwargs: map<string, string>): (r: map<string, Json>)
    ensures r.Keys == kwargs.Keys
    ensures forall k | k in kwargs :: r[k] == JStr(kwargs[k])
  {
    map k | k in kwargs :: JStr(kwargs[k])
  }

  /** The request the remote path makes, and its reply. */
  function Reply(api: Api, e: Endpoint): Response {
    match e
    case Releases(limit) => Request(api, "releases", ReleasesParams(limit))
    case ReleaseInfo(rid) => Request(api, "release", ReleaseInfoParams(rid))
    case ReleaseSeries(rid, limit) => Request(api, "release/series", ReleaseSeriesParams(rid, limit))
    case Observations(sid, limit, kwargs) =>
      Request(api, "series/observations", SeriesObservationsParams(JStr(sid), limit, JsonFilters(kwargs)))
  }

  /** `[to_dict(r) for r in rows]`. */
  function Dicts<T>(rows: seq<T>, toDict: T -> Object): (r: seq<Object>)
    ensures |r| == |rows|
    ensures forall i | 0 <= i < |rows| :: r[i] == toDict(rows[i])
  {
    seq(|rows|, i requires 0 <= i < |rows| => toDict(rows[i]))
  }

  /** The rows the cached path reads, as dicts. The release-info path
      reads a single release row and keeps it only when it is the
      requested release; the observations read ignores the date filters. */
  function CachedRows(st: Store, e: Endpoint): seq<Object> {
    match e
    case Releases(limit) => Dicts(GetReleases(st, limit), ReleaseToDict)
    case ReleaseInfo(rid) =>
      var one := GetReleases(st, 1);
      if |one| > 0 && one[0].id == rid then [ReleaseToDict(one[0])] else []
    case ReleaseSeries(rid, limit) => Dicts(GetSeries(st, Some(rid), limit), SeriesToDict)
    case Observations(sid, limit, _) => Dicts(GetObservations(st, sid, limit), ObservationToDict)
  }

  /** The dict a cache hit returns: the rows under the list key, their
      number (except for release info) and `cached: True`. */
  function CachedPayload(e: Endpoint, rows: seq<Object>): Object {
    if e.ReleaseInfo? then map["releases" := ObjectsToJson(rows), "cached" := JBool(true)]
    else map[ListKey(e) := ObjectsToJson(rows), "count" := JInt(|rows|), "cached" := JBool(true)]
  }

  /** The write-through of a record list: `store_releases`, or
      `store_series` with the release, or `store_observations` with the
      series. The items are the caller's dicts as the write left them;
      `store_releases` leaves them alone. */
  function WriteRecords(st: Store, e: Endpoint, records: seq<Json>, now: int, fault: bool): (w: BatchWrite)
    requires Valid(st)
    ensures Valid(w.store)
    ensures |w.items| == |records|
    ensures !w.ok ==> w.store == st
    ensures w.store.meta == st.meta
    ensures (e.Releases? || e.ReleaseInfo?) ==>
      w.items == records && w.store.series == st.series && w.store.observations == st.observations
    ensures e.ReleaseSeries? ==> w.store.releases == st.releases && w.store.observations == st.observations
    ensures e.ReleaseSeries? ==>
      forall j | 0 <= j < |records| :: w.items[j] == records[j] || w.items[j] == TaggedSeriesItem(records[j], Some(e.releaseId))
    ensures e.Observations? ==> w.store.releases == st.releases && w.store.series == st.series
  {
    match e
    case Releases(_) => var w := StoreReleases(st, records, now, fault); BatchWrite(w.ok, w.store, records)
    case ReleaseInfo(_) => var w := StoreReleases(st, records, now, fault); BatchWrite(w.ok, w.store, records)
    case ReleaseSeries(rid, _) => StoreSeries(st, records, Some(rid), now, fault)
    case Observations(sid, _, _) => StoreObservations(st, records, sid, now, fault)
  }

  /** The `data_count` the key is stamped with: the number of records,
      except for release info, which always records 1. */
  function StampCount(e: Endpoint, records: seq<Json>): int {
    if e.ReleaseInfo? then 1 else |records|
  }

  // ---------------------------------------------------------------- replies

  /** The record list under `key` is a list whenever the reply carries one. */
  predicate ListedReply(reply: Option<Object>, key: string) {
    Answered(reply) ==> ListOrAbsent(reply.value, key)
  }

  /** The reply arrived and its record list is not empty: the case in which
      the fetchers write through. */
  predicate WritesThrough(reply: Option<Object>, key: string) {
    Answered(reply) && key in reply.value && reply.value[key].JArr? && |reply.value[key].items| > 0
  }

  function RecordList(reply: Option<Object>, key: string): seq<Json>
    requires WritesThrough(reply, key)
  {
    reply.value[key].items
  }

  /** `data['cached'] = False`. */
  function Fresh(data: Object): Object {
    data["cached" := JBool(false)]
  }

  // ------------------------------------------------------------- the fetcher

  /** The cache path is taken: no forced refresh, a fresh key, and a
      non-empty cached read. */
  predicate Hit(st: Store, e: Endpoint, force: bool, now: int) {
    !force && IsCacheValid(st, CacheKey(e), now) && |CachedRows(st, e)| > 0
  }

  /** The remote path: one request; nothing when the reply is missing or
      empty; otherwise the reply with `cached: False`, after writing a
      non-empty record list through and stamping the key with the default
      time to live, whether or not the data write succeeded. */
  function Fetched(c: Client, st: Store, e: Endpoint, now: int): (f: Fetch)
    requires Valid(st)
    requires ListedReply(Reply(c.api, e).answer, ListKey(e))
    ensures Valid(f.store)
    ensures f.calls == [Reply(c.api, e).call]
    ensures f.payload.Some? <==> Answered(Reply(c.api, e).answer)
    ensures !WritesThrough(Reply(c.api, e).answer, ListKey(e)) ==>
      && f.store == st
      && (f.payload.Some? ==> f.payload.value == Fresh(Reply(c.api, e).answer.value))
  {
    var key := CacheKey(e);
    var reply := Reply(c.api, e);
    if !Answered(reply.answer) then Fetch(None, st, [reply.call])
    else if !WritesThrough(reply.answer, ListKey(e)) then Fetch(Some(Fresh(reply.answer.value)), st, [reply.call])
    else
      var records := RecordList(reply.answer, ListKey(e));
      var w := WriteRecords(st, e, records, now, c.faults(key, DataWrite));
      var m := UpdateCacheMetadata(w.store, key, CacheType(e), StampCount(e, records), DefaultTtlHours, now,
                                   c.faults(key, MetadataWrite));
      Fetch(Some(Fresh(reply.answer.value[ListKey(e) := JArr(w.items)])), m.store, [reply.call])
  }

  /** On the write-through path: the reply is returned with the caller's
      dicts as the write left them, the tables are what the write left,
      and the metadata is the table as it was before the fetch with the key
      stamped, whether or not the data write succeeded. */
  lemma FetchedWritesThrough(c: Client, st: Store, e: Endpoint, now: int)
    requires Valid(st)
    requires WritesThrough(Reply(c.api, e).answer, ListKey(e))
    ensures
      var data := Reply(c.api, e).answer.value;
      var w := WriteRecords(st, e, data[ListKey(e)].items, now, c.faults(CacheKey(e), DataWrite));
      && Fetched(c, st, e, now).payload == Some(Fresh(data[ListKey(e) := JArr(w.items)]))
      && Fetched(c, st, e, now).store.releases == w.store.releases
      && Fetched(c, st, e, now).store.series == w.store.series
      && Fetched(c, st, e, now).store.observations == w.store.observations
      && Fetched(c, st, e, now).store.meta == UpdateCacheMetadata(st, CacheKey(e), CacheType(e), StampCount(e, data[ListKey(e)].items),
                                             DefaultTtlHours, now, c.faults(CacheKey(e), MetadataWrite)).store.meta
  {
    var key := CacheKey(e);
    var data := Reply(c.api, e).answer.value;
    var records := data[ListKey(e)].items;
    var w := WriteRecords(st, e, records, now, c.faults(key, DataWrite));
    var m := UpdateCacheMetadata(w.store, key, CacheType(e), StampCount(e, records), DefaultTtlHours, now,
                                 c.faults(key, MetadataWrite));
    assert Fetched(c, st, e, now) == Fetch(Some(Fresh(data[ListKey(e) := JArr(w.items)])), m.store, [Reply(c.api, e).call]);
    StampIgnoresTables(w.store, st, key, CacheType(e), StampCount(e, records), DefaultTtlHours, now, c.faults(key, MetadataWrite));
  }

  /** A cached fetcher: the cached listing on a hit, without touching the
      remote or the store; the remote path otherwise. */
  function GetCached(c: Client, st: Store, e: Endpoint, force: bool, now: int): (f: Fetch)
    requires Valid(st)
    requires ListedReply(Reply(c.api, e).answer, ListKey(e))
    ensures Valid(f.store)
    ensures f.calls == [] <==> Hit(st, e, force, now)
    ensures Hit(st, e, force, now) ==> f.store == st && f.payload == Some(CachedPayload(e, CachedRows(st, e)))
    ensures !Hit(st, e, force, now) ==> f == Fetched(c, st, e, now)
  {
    if Hit(st, e, force, now) then Fetch(Some(CachedPayload(e, CachedRows(st, e))), st, [])
    else Fetched(c, st, e, now)
  }
}
